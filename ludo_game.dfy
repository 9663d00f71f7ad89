/**
  The turn engine of the Ludo game component (src/components/ludo/LudoGame.tsx):
  which tokens of the active player may move, how a chosen token moves, win
  detection, turn rotation and the gating of the dice.
*/
module LudoGame {
  import opened Wrappers
  import opened JsArrays
  import opened LudoConstants

  datatype PlayerState = Waiting | Playing | Won

  datatype Player = Player(id: Color, name: string, tokens: seq<int>, state: PlayerState)

  /** Token positions the engine writes: -1 in base, 0..51 on the main path, 106 finished. */
  const InBase := -1
  const LastMainPos := 51
  const Finished := 106

  const TokensPerPlayer := 4

  const FreshTokens: seq<int> := [-1, -1, -1, -1]

  /** initialPlayers: the state the engine always starts from, and the turn order. */
  const InitialPlayers: seq<Player> := [
    Player(Red, "Player 1", FreshTokens, Playing),
    Player(Green, "Player 2", FreshTokens, Playing),
    Player(Yellow, "Player 3", FreshTokens, Playing),
    Player(Blue, "Player 4", FreshTokens, Playing)
  ]

  /** The positions a token can hold in a running game. */
  predicate ValidPosition(pos: int) {
    pos == InBase || 0 <= pos <= LastMainPos || pos == Finished
  }

  /** JavaScript truthiness of the dice value: null and 0 both count as "no dice". */
  predicate DiceSet(dice: Option<int>) {
    dice.Some? && dice.value != 0
  }

  /** The map callback of movableTokens: whether one token may move with this dice value. */
  predicate CanMove(pos: int, dice: int) {
    !(pos == InBase && dice != 6) && pos != Finished
  }

  /** map-then-filter of movableTokens: the indices of the tokens that may move, in order. */
  function MovableIndices(tokens: seq<int>, dice: int): (r: seq<nat>)
    ensures forall j :: 0 <= j < |r| ==> r[j] < |tokens|
    ensures forall i, j :: 0 <= i < j < |r| ==> r[i] < r[j]
    ensures forall k :: k in r <==>
      0 <= k < |tokens| && (tokens[k] == InBase ==> dice == 6) && tokens[k] != Finished
  {
    if |tokens| == 0 then []
    else
      var n := |tokens| - 1;
      MovableIndices(tokens[..n], dice) + if CanMove(tokens[n], dice) then [n] else []
  }

  /** players.find / findIndex by colour. */
  function FindPlayer(players: seq<Player>, color: Color): (r: Option<nat>)
    ensures r.Some? ==> r.value < |players| && players[r.value].id == color
    ensures r.None? ==> forall k :: 0 <= k < |players| ==> players[k].id != color
  {
    FindIndex(players, (p: Player) => p.id == color)
  }

  /** movableTokens: nothing without a dice value or without a player of the active colour. */
  function MovableTokens(players: seq<Player>, active: Color, dice: Option<int>): (r: seq<nat>)
    ensures !DiceSet(dice) ==> r == []
    ensures FindPlayer(players, active).None? ==> r == []
    ensures DiceSet(dice) && FindPlayer(players, active).Some? ==>
      r == MovableIndices(players[FindPlayer(players, active).value].tokens, dice.value)
  {
    if !DiceSet(dice) then []
    else match FindPlayer(players, active)
      case None => []
      case Some(i) => MovableIndices(players[i].tokens, dice.value)
  }

  /**
    Where a token goes: out of base onto its start on a 6, otherwise forward by
    the dice value, straight to the finished value once it passes 51. A valid,
    movable token under a dice value of 1..6 strictly advances and stays valid.
  */
  function MovedPosition(pos: int, dice: int): (r: int)
    ensures ValidPosition(pos) && CanMove(pos, dice) && 1 <= dice <= 6 ==> pos < r && ValidPosition(r)
    ensures pos == InBase && dice != 6 ==> r == pos
  {
    if pos == InBase && dice == 6 then 0
    else if pos != InBase then
      var newPos := pos + dice;
      if newPos > LastMainPos then Finished else newPos
    else pos
  }

  /** tokens.every(p => p === 106). */
  predicate AllFinished(tokens: seq<int>) {
    forall k :: 0 <= k < |tokens| ==> tokens[k] == Finished
  }

  /** The turn passes along initialPlayers, wrapping after the last: red, green, yellow, blue. */
  function NextColor(c: Color): (r: Color)
    ensures ColorRank(r) == if ColorRank(c) + 1 == |AllColors| then 0 else ColorRank(c) + 1
  {
    assert InitialPlayers[ColorRank(c)].id == c;
    var i := FindPlayer(InitialPlayers, c).value;
    InitialPlayers[(i + 1) % |InitialPlayers|].id
  }

  /** The four colours take their turns in a cycle of length four. */
  lemma NextColorCycle(c: Color)
    ensures NextColor(c) != c && NextColor(NextColor(c)) != c && NextColor(NextColor(NextColor(c))) != c
    ensures NextColor(NextColor(NextColor(NextColor(c)))) == c
  {
    var c1 := NextColor(c);
    var c2 := NextColor(c1);
    var c3 := NextColor(c2);
    var c4 := NextColor(c3);
    assert ColorRank(c4) == ColorRank(c);
  }

  /** The state cells of the game component. */
  datatype GameState = GameState(
    players: seq<Player>,
    activePlayer: Color,
    diceValue: Option<int>,
    winner: Option<Color>,
    isRolling: bool)

  /** useState initial values: the four initial players, red to move, a 6 already on the dice. */
  const InitialState := GameState(InitialPlayers, Red, Some(6), None, false)

  /**
    What every reachable state satisfies: the four players in fixed colour order,
    four tokens each at valid positions, 'won' exactly when all four are finished,
    a dice value of 1..6 if any, and a winner exactly when some player has won.
  */
  predicate ValidState(s: GameState) {
    && |s.players| == |AllColors|
    && (forall i :: 0 <= i < |s.players| ==> ValidPlayer(s.players[i], AllColors[i]))
    && (s.diceValue.Some? ==> 1 <= s.diceValue.value <= 6)
    && (s.winner.Some? ==> s.players[ColorRank(s.winner.value)].state == Won)
    && (s.winner.None? ==> forall i :: 0 <= i < |s.players| ==> s.players[i].state != Won)
  }

  /** A player of colour c with four tokens at valid positions, 'won' exactly when all are finished. */
  predicate ValidPlayer(p: Player, c: Color) {
    && p.id == c
    && |p.tokens| == TokensPerPlayer
    && (forall k :: 0 <= k < |p.tokens| ==> ValidPosition(p.tokens[k]))
    && (p.state == Won <==> AllFinished(p.tokens))
  }

  lemma InitialStateValid()
    ensures ValidState(InitialState)
    ensures forall k ::
      (k in MovableTokens(InitialState.players, InitialState.activePlayer, InitialState.diceValue) <==> 0 <= k < TokensPerPlayer)
  {
    forall i | 0 <= i < |InitialPlayers| ensures ValidPlayer(InitialPlayers[i], AllColors[i]) {
      InitialPlayerValid(i);
    }
    assert FindPlayer(InitialPlayers, Red) == Some(0);
    assert InitialPlayers[0].tokens == FreshTokens;
    FreshTokensMovableOnSix();
  }

  lemma InitialPlayerValid(i: nat)
    requires i < |InitialPlayers|
    ensures ValidPlayer(InitialPlayers[i], AllColors[i])
  {
    assert InitialPlayers[i].tokens == FreshTokens && FreshTokens[0] == InBase;
    assert !AllFinished(FreshTokens);
  }

  /** With a 6 every token still in base may move. */
  lemma FreshTokensMovableOnSix()
    ensures forall k :: k in MovableIndices(FreshTokens, 6) <==> 0 <= k < TokensPerPlayer
  {
  }

  /** The guard of handleTokenMove: a dice value is set and the token is movable. */
  predicate Accepts(s: GameState, tokenIndex: nat) {
    DiceSet(s.diceValue) && tokenIndex in MovableTokens(s.players, s.activePlayer, s.diceValue)
  }

  /** The active player after moving token tokenIndex with the given dice value. */
  function MovePlayer(p: Player, tokenIndex: nat, dice: int): Player
    requires tokenIndex < |p.tokens|
  {
    var tokens := p.tokens[tokenIndex := MovedPosition(p.tokens[tokenIndex], dice)];
    p.(tokens := tokens, state := if AllFinished(tokens) then Won else p.state)
  }

  /** handleTokenMove as a state transition. */
  function TokenMove(s: GameState, tokenIndex: nat): GameState {
    if !Accepts(s, tokenIndex) then s
    else
      var dice := s.diceValue.value;
      var pi := FindPlayer(s.players, s.activePlayer).value;
      var moved := MovePlayer(s.players[pi], tokenIndex, dice);
      s.(players := s.players[pi := moved],
         winner := if AllFinished(moved.tokens) then Some(moved.id) else s.winner,
         activePlayer := if dice != 6 then NextColor(s.activePlayer) else s.activePlayer,
         diceValue := None)
  }

  /** A move without a dice value, or of a token that is not movable, changes nothing. */
  lemma TokenMoveRejected(s: GameState, tokenIndex: nat)
    requires !DiceSet(s.diceValue) || tokenIndex !in MovableTokens(s.players, s.activePlayer, s.diceValue)
    ensures TokenMove(s, tokenIndex) == s
  {
  }

  /**
    There is no auto-pass: with a dice value set and no movable token the game
    is stuck, since every click is refused and the dice stays disabled.
  */
  lemma NoMoveIsStuck(s: GameState, tokenIndex: nat)
    requires ValidState(s) && DiceSet(s.diceValue)
    requires MovableTokens(s.players, s.activePlayer, s.diceValue) == []
    ensures TokenMove(s, tokenIndex) == s && !RollEnabled(s)
  {
  }

  /** Green with every token in base rolling a 3 is such a state. */
  lemma GreenInBaseOnThreeIsStuck()
    ensures var s := InitialState.(activePlayer := Green, diceValue := Some(3));
      ValidState(s) && DiceSet(s.diceValue) && MovableTokens(s.players, s.activePlayer, s.diceValue) == []
  {
    InitialStateValid();
    var s := InitialState.(activePlayer := Green, diceValue := Some(3));
    assert s.players == InitialPlayers;
    assert s.players[ColorRank(Green)].tokens == FreshTokens;
    BaseOnlyIsStuck(s);
  }

  /** An active player with every token in base and a dice value other than 6 has nothing to move. */
  lemma BaseOnlyIsStuck(s: GameState)
    requires ValidState(s) && DiceSet(s.diceValue) && s.diceValue.value != 6
    requires s.players[ColorRank(s.activePlayer)].tokens == FreshTokens
    ensures MovableTokens(s.players, s.activePlayer, s.diceValue) == []
  {
    ActivePlayerFound(s);
    NothingMovable(FreshTokens, s.diceValue.value);
  }

  /** No token may move exactly when the filtered index list is empty. */
  lemma {:induction false} NothingMovable(tokens: seq<int>, dice: int)
    requires forall k :: 0 <= k < |tokens| ==> !CanMove(tokens[k], dice)
    ensures MovableIndices(tokens, dice) == []
  {
    if |tokens| > 0 {
      var n := |tokens| - 1;
      NothingMovable(tokens[..n], dice);
    }
  }

  /** In a valid state the active player is found at its colour's rank. */
  lemma ActivePlayerFound(s: GameState)
    requires ValidState(s)
    ensures FindPlayer(s.players, s.activePlayer) == Some(ColorRank(s.activePlayer))
  {
    var a := ColorRank(s.activePlayer);
    assert s.players[a].id == s.activePlayer;
    var r := FindPlayer(s.players, s.activePlayer);
    assert s.players[r.value].id == AllColors[r.value];
  }

  /** An accepted move in a valid state, written with the active player's rank. */
  lemma AcceptedMove(s: GameState, tokenIndex: nat)
    requires ValidState(s) && Accepts(s, tokenIndex)
    ensures var a := ColorRank(s.activePlayer);
      var p := s.players[a];
      var dice := s.diceValue.value;
      && FindPlayer(s.players, s.activePlayer) == Some(a)
      && tokenIndex < |p.tokens| && 1 <= dice <= 6 && CanMove(p.tokens[tokenIndex], dice) && p.state != Won
      && TokenMove(s, tokenIndex) == s.(
           players := s.players[a := MovePlayer(p, tokenIndex, dice)],
           winner := if AllFinished(MovePlayer(p, tokenIndex, dice).tokens) then Some(s.activePlayer) else s.winner,
           activePlayer := if dice != 6 then NextColor(s.activePlayer) else s.activePlayer,
           diceValue := None)
  {
    ActivePlayerFound(s);
    var a := ColorRank(s.activePlayer);
    var p := s.players[a];
    assert tokenIndex in MovableIndices(p.tokens, s.diceValue.value);
    assert p.tokens[tokenIndex] != Finished;
  }

  /**
    An accepted move changes only the chosen token of the active player: out of
    base to 0 on a 6, otherwise forward to pos + dice, or 106 past 51. Positions
    strictly increase and stay valid.
  */
  lemma TokenMoveChangesOneToken(s: GameState, tokenIndex: nat)
    requires ValidState(s) && Accepts(s, tokenIndex)
    ensures var r := TokenMove(s, tokenIndex);
      var a := ColorRank(s.activePlayer);
      var oldPos := s.players[a].tokens[tokenIndex];
      var newPos := r.players[a].tokens[tokenIndex];
      && |r.players| == |s.players|
      && tokenIndex < TokensPerPlayer
      && (forall i :: 0 <= i < |s.players| && i != a ==> r.players[i] == s.players[i])
      && r.players[a].id == s.players[a].id && r.players[a].name == s.players[a].name
      && |r.players[a].tokens| == TokensPerPlayer
      && (forall k :: 0 <= k < TokensPerPlayer && k != tokenIndex ==>
            r.players[a].tokens[k] == s.players[a].tokens[k])
      && newPos == (if oldPos == InBase then 0
                     else if oldPos + s.diceValue.value > LastMainPos then Finished
                     else oldPos + s.diceValue.value)
      && oldPos < newPos && ValidPosition(newPos)
  {
    AcceptedMove(s, tokenIndex);
  }

  /** After an accepted move the mover has won, and is the winner, exactly when all four tokens are at 106. */
  lemma TokenMoveWinner(s: GameState, tokenIndex: nat)
    requires ValidState(s) && Accepts(s, tokenIndex)
    ensures var r := TokenMove(s, tokenIndex);
      var a := ColorRank(s.activePlayer);
      && |r.players| == |s.players|
      && (r.players[a].state == Won <==> AllFinished(r.players[a].tokens))
      && (r.winner == if AllFinished(r.players[a].tokens) then Some(s.activePlayer) else s.winner)
  {
    AcceptedMove(s, tokenIndex);
  }

  /**
    After an accepted move the dice is cleared; the same colour moves again
    after a 6, otherwise the next colour in red, green, yellow, blue order.
  */
  lemma TokenMoveTurn(s: GameState, tokenIndex: nat)
    requires Accepts(s, tokenIndex)
    ensures var r := TokenMove(s, tokenIndex);
      && r.diceValue.None?
      && (s.diceValue.value == 6 ==> r.activePlayer == s.activePlayer)
      && (s.diceValue.value != 6 ==> r.activePlayer == NextColor(s.activePlayer))
  {
  }

  /** Moving a token of a valid player who has not won, with a dice value of 1..6, keeps the player valid. */
  lemma MovePlayerValid(p: Player, c: Color, tokenIndex: nat, dice: int)
    requires ValidPlayer(p, c) && p.state != Won && 1 <= dice <= 6
    requires tokenIndex < |p.tokens| && CanMove(p.tokens[tokenIndex], dice)
    ensures ValidPlayer(MovePlayer(p, tokenIndex, dice), c)
  {
    var q := MovePlayer(p, tokenIndex, dice);
    forall k | 0 <= k < |q.tokens| ensures ValidPosition(q.tokens[k]) {
      if k != tokenIndex {
        assert q.tokens[k] == p.tokens[k];
      }
    }
  }

  /** Every transition of handleTokenMove keeps the state valid. */
  lemma TokenMovePreservesValid(s: GameState, tokenIndex: nat)
    requires ValidState(s)
    ensures ValidState(TokenMove(s, tokenIndex))
  {
    if Accepts(s, tokenIndex) {
      AcceptedMove(s, tokenIndex);
      var a := ColorRank(s.activePlayer);
      var p := s.players[a];
      var dice := s.diceValue.value;
      MovePlayerValid(p, s.activePlayer, tokenIndex, dice);
      var r := TokenMove(s, tokenIndex);
      assert r.players == s.players[a := MovePlayer(p, tokenIndex, dice)];
      forall i | 0 <= i < |r.players| ensures ValidPlayer(r.players[i], AllColors[i]) {
        if i != a {
          assert r.players[i] == s.players[i];
        }
      }
    }
  }

  /** The dice button is enabled (line 160) when not rolling, without a winner and without a pending value. */
  predicate RollEnabled(s: GameState) {
    !(s.isRolling || s.winner.Some? || s.diceValue.Some?)
  }

  /** The game component: its state cells and the handlers that update them. */
  class Game {
    var players: seq<Player>
    var activePlayer: Color
    var diceValue: Option<int>
    var winner: Option<Color>
    var isRolling: bool

    function State(): GameState
      reads this
    {
      GameState(players, activePlayer, diceValue, winner, isRolling)
    }

    ghost predicate Valid()
      reads this
    {
      ValidState(State())
    }

    constructor ()
      ensures Valid() && State() == InitialState
    {
      players := InitialPlayers;
      activePlayer := Red;
      diceValue := Some(6);
      winner := None;
      isRolling := false;
      new;
      InitialStateValid();
    }

    /** handleDiceRoll: store the rolled value (the dice widget only rolls 1..6). */
    method HandleDiceRoll(value: int)
      requires Valid() && 1 <= value <= 6
      modifies this
      ensures Valid()
      ensures State() == old(State()).(diceValue := Some(value), isRolling := false)
    {
      diceValue := Some(value);
      isRolling := false;
    }

    /** A press of the dice button: ignored while disabled, otherwise the rolled value is stored. */
    method Roll(value: int) returns (accepted: bool)
      requires Valid() && 1 <= value <= 6
      modifies this
      ensures Valid()
      ensures accepted == RollEnabled(old(State()))
      ensures accepted ==> State() == old(State()).(diceValue := Some(value), isRolling := false)
      ensures accepted ==> !RollEnabled(State())
      ensures !accepted ==> State() == old(State())
    {
      accepted := RollEnabled(State());
      if accepted {
        HandleDiceRoll(value);
      }
    }

    /** handleTokenMove: move the active player's token tokenIndex, check for a win, pass the turn. */
    method HandleTokenMove(tokenIndex: nat)
      requires Valid()
      modifies this
      ensures Valid()
      ensures State() == TokenMove(old(State()), tokenIndex)
    {
      ghost var before := State();
      if !DiceSet(diceValue) || tokenIndex !in MovableTokens(players, activePlayer, diceValue) {
        TokenMoveRejected(before, tokenIndex);
        TokenMovePreservesValid(before, tokenIndex);
        return;
      }
      AcceptedMove(before, tokenIndex);
      ghost var after := TokenMove(before, tokenIndex);
      var dice := diceValue.value;
      var playerIndex := FindPlayer(players, activePlayer).value;
      var player := players[playerIndex];
      var currentPos := player.tokens[tokenIndex];
      var newValue := currentPos;
      if currentPos == InBase && dice == 6 {
        newValue := 0;
      } else if currentPos != InBase {
        var newPos := currentPos + dice;
        if newPos > LastMainPos {
          newValue := Finished;
        } else {
          newValue := newPos;
        }
      }
      assert newValue == MovedPosition(currentPos, dice);
      var tokens := player.tokens[tokenIndex := newValue];
      var state := player.state;
      if AllFinished(tokens) {
        state := Won;
        winner := Some(player.id);
      }
      assert player.(tokens := tokens, state := state) == MovePlayer(player, tokenIndex, dice);
      players := players[playerIndex := player.(tokens := tokens, state := state)];
      if dice != 6 {
        activePlayer := NextColor(activePlayer);
      }
      diceValue := None;
      assert players == after.players && winner == after.winner;
      assert activePlayer == after.activePlayer && diceValue == after.diceValue && isRolling == after.isRolling;
      TokenMovePreservesValid(before, tokenIndex);
    }
  }
}
