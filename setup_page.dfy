/**
  The offline game setup screen (src/app/page.tsx): the colour choices offered to
  each player, editing one player's configuration, and building the players of a
  new game with the unique-colour check.
*/
module SetupPage {
  import opened Wrappers
  import opened JsArrays
  import opened LudoConstants
  import opened LudoGame

  datatype PlayerConfig = PlayerConfig(name: string, color: Color)

  /** The new value of one field, as the name input or the colour select passes it. */
  datatype FieldValue = NameValue(name: string) | ColorValue(color: Color)

  /** The configurations the screen starts with. */
  const DefaultConfigs: seq<PlayerConfig> := [
    PlayerConfig("Player 1", Red),
    PlayerConfig("Player 2", Blue),
    PlayerConfig("Player 3", Green),
    PlayerConfig("Player 4", Yellow)
  ]

  const DuplicateColorMessage := "Each player must have a unique color."

  /** The colours held by the first n configurations other than entry `current`. */
  function SelectedColors(configs: seq<PlayerConfig>, n: nat, current: nat): (r: seq<Color>)
    ensures forall c :: c in r <==>
      exists j :: 0 <= j < Min(n, |configs|) && j != current && configs[j].color == c
  {
    var active := SliceTo(configs, n);
    OthersColors(active, current)
  }

  /** map to the colour or null at `current`, then filter(Boolean). */
  function OthersColors(configs: seq<PlayerConfig>, current: nat): (r: seq<Color>)
    ensures forall c :: c in r <==>
      exists j :: 0 <= j < |configs| && j != current && configs[j].color == c
  {
    if |configs| == 0 then []
    else
      var n := |configs| - 1;
      var rest := OthersColors(configs[..n], current);
      assert forall j :: 0 <= j < n ==> configs[..n][j] == configs[j];
      rest + if n != current then [configs[n].color] else []
  }

  /** Strictly increasing in declaration order. */
  predicate RankOrdered(colors: seq<Color>) {
    forall i, j :: 0 <= i < j < |colors| ==> ColorRank(colors[i]) < ColorRank(colors[j])
  }

  /** ALL_COLORS.filter(c => !excluded.includes(c)). */
  function Without(colors: seq<Color>, excluded: seq<Color>): (r: seq<Color>)
    ensures forall c :: c in r <==> c in colors && c !in excluded
    ensures RankOrdered(colors) ==> RankOrdered(r)
  {
    if |colors| == 0 then []
    else
      var n := |colors| - 1;
      var init := colors[..n];
      var rest := Without(init, excluded);
      var r := rest + if colors[n] !in excluded then [colors[n]] else [];
      assert colors == init + [colors[n]];
      if RankOrdered(colors) then
        assert RankOrdered(init) by {
          forall i, j | 0 <= i < j < |init| ensures ColorRank(init[i]) < ColorRank(init[j]) {
            assert init[i] == colors[i] && init[j] == colors[j];
          }
        }
        forall i, j | 0 <= i < j < |r| ensures ColorRank(r[i]) < ColorRank(r[j]) {
          if j >= |rest| {
            assert r[i] in init;
            var k :| 0 <= k < n && init[k] == r[i];
            assert colors[k] == r[i] && r[j] == colors[n];
          }
        }
        r
      else r
  }

  /**
    availableColors(current): the colours, in declaration order, that no other
    player among the first numPlayers holds. The player's own colour and the
    colours of entries at or past numPlayers never hide a colour.
  */
  function AvailableColors(configs: seq<PlayerConfig>, numPlayers: nat, current: nat): (r: seq<Color>)
    ensures forall c :: c in r <==>
      forall j :: 0 <= j < Min(numPlayers, |configs|) && j != current ==> configs[j].color != c
    ensures forall i, j :: 0 <= i < j < |r| ==> ColorRank(r[i]) < ColorRank(r[j])
  {
    var r := Without(AllColors, SelectedColors(configs, numPlayers, current));
    forall c ensures c in AllColors { assert AllColors[ColorRank(c)] == c; }
    assert RankOrdered(AllColors);
    r
  }

  /** handlePlayerChange: entry `index` gets the new field value; every other entry and field is kept. */
  function ChangePlayer(configs: seq<PlayerConfig>, index: nat, value: FieldValue): (r: seq<PlayerConfig>)
    requires index < |configs|
    ensures |r| == |configs|
    ensures forall j :: 0 <= j < |configs| && j != index ==> r[j] == configs[j]
    ensures value.NameValue? ==> r[index] == PlayerConfig(value.name, configs[index].color)
    ensures value.ColorValue? ==> r[index] == PlayerConfig(configs[index].name, value.color)
  {
    var cfg := configs[index];
    var updated := match value
      case NameValue(name) => cfg.(name := name)
      case ColorValue(color) => cfg.(color := color);
    configs[index := updated]
  }

  /** No colour occurs twice. */
  predicate DistinctColors(colors: seq<Color>) {
    forall i, j :: 0 <= i < j < |colors| ==> colors[i] != colors[j]
  }

  /** new Set(colors).size === colors.length exactly when no colour occurs twice. */
  lemma {:induction false} SetSizeDistinct(colors: seq<Color>)
    ensures |set c | c in colors| == |colors| <==> DistinctColors(colors)
    ensures |set c | c in colors| <= |colors|
  {
    if |colors| > 0 {
      var n := |colors| - 1;
      var init := colors[..n];
      SetSizeDistinct(init);
      assert colors == init + [colors[n]];
      var s, s' := set c | c in init, set c | c in colors;
      assert s' == s + {colors[n]};
      if colors[n] in init {
        assert s' == s;
        var k :| 0 <= k < n && init[k] == colors[n];
        assert colors[k] == colors[n];
      } else {
        assert |s'| == |s| + 1;
        if DistinctColors(init) {
          forall i, j | 0 <= i < j < |colors| ensures colors[i] != colors[j] {
            if j == n {
              assert colors[i] in init;
            } else {
              assert colors[i] == init[i] && colors[j] == init[j];
            }
          }
        } else {
          var i, j :| 0 <= i < j < n && init[i] == init[j];
          assert colors[i] == colors[j];
        }
      }
    }
  }

  /** A fresh game player for one configuration. */
  function NewPlayer(cfg: PlayerConfig): Player {
    Player(cfg.color, cfg.name, FreshTokens, Playing)
  }

  /**
    handleStartGame, up to the uniqueness check: one fresh player per configuration
    among the first numPlayers, in order, or a rejection when two share a colour.
  */
  function StartGame(configs: seq<PlayerConfig>, numPlayers: nat): (r: Result<seq<Player>, string>)
    ensures r.Failure? <==> !DistinctColors(seq(Min(numPlayers, |configs|), j requires 0 <= j < Min(numPlayers, |configs|) => configs[j].color))
    ensures r.Failure? ==> r.error == DuplicateColorMessage
    ensures r.Success? ==> |r.value| == Min(numPlayers, |configs|)
    ensures r.Success? ==> forall j :: 0 <= j < |r.value| ==>
      r.value[j] == Player(configs[j].color, configs[j].name, [-1, -1, -1, -1], Playing)
  {
    var gamePlayers := seq(|SliceTo(configs, numPlayers)|,
      j requires 0 <= j < |SliceTo(configs, numPlayers)| => NewPlayer(SliceTo(configs, numPlayers)[j]));
    var colors := seq(|gamePlayers|, j requires 0 <= j < |gamePlayers| => gamePlayers[j].id);
    SetSizeDistinct(colors);
    assert colors == seq(Min(numPlayers, |configs|), j requires 0 <= j < Min(numPlayers, |configs|) => configs[j].color);
    if |set c | c in colors| != |colors| then Failure(DuplicateColorMessage)
    else Success(gamePlayers)
  }

  /** With two players, player 1 may pick green: only the hidden third entry holds it. */
  lemma GreenOfferedToFirstOfTwo()
    ensures Green in AvailableColors(DefaultConfigs, 2, 0)
  {
    assert DefaultConfigs[1].color == Blue;
  }

  /** The default two-player configuration starts. */
  lemma DefaultTwoPlayersStart()
    ensures StartGame(DefaultConfigs, 2).Success?
  {
    var two := seq(Min(2, |DefaultConfigs|), j requires 0 <= j < Min(2, |DefaultConfigs|) => DefaultConfigs[j].color);
    assert |two| == 2 && two[0] == Red && two[1] == Blue;
    assert DistinctColors(two);
  }

  /**
    The colour choices do not rule duplicates out: once player 1 has taken green
    and the count is switched to four, the start is rejected.
  */
  lemma DuplicateAfterCountChange()
    ensures StartGame(ChangePlayer(DefaultConfigs, 0, ColorValue(Green)), 4).Failure?
  {
    var changed := ChangePlayer(DefaultConfigs, 0, ColorValue(Green));
    assert |changed| == 4 && changed[0].color == Green && changed[2] == DefaultConfigs[2];
    var colors := seq(Min(4, |changed|), j requires 0 <= j < Min(4, |changed|) => changed[j].color);
    assert |colors| == 4;
    assert colors[0] == colors[2];
    assert !DistinctColors(colors);
  }

  /** The setup screen's state: the player count and the four configurations. */
  class Setup {
    var numPlayers: nat
    var players: seq<PlayerConfig>

    ghost predicate Valid()
      reads this
    {
      |players| == 4 && (numPlayers == 2 || numPlayers == 4)
    }

    constructor ()
      ensures Valid() && numPlayers == 2 && players == DefaultConfigs
    {
      numPlayers := 2;
      players := DefaultConfigs;
    }

    /** handlePlayerCountChange: the radio group offers 2 and 4. */
    method HandlePlayerCountChange(value: nat)
      requires Valid() && (value == 2 || value == 4)
      modifies this
      ensures Valid() && numPlayers == value && players == old(players)
    {
      numPlayers := value;
    }

    /** handlePlayerChange; the screen only offers the entries below numPlayers. */
    method HandlePlayerChange(index: nat, value: FieldValue)
      requires Valid() && index < numPlayers
      modifies this
      ensures Valid() && numPlayers == old(numPlayers)
      ensures players == ChangePlayer(old(players), index, value)
    {
      var newPlayers := players;
      var cfg := newPlayers[index];
      match value {
        case NameValue(name) => newPlayers := newPlayers[index := cfg.(name := name)];
        case ColorValue(color) => newPlayers := newPlayers[index := cfg.(color := color)];
      }
      players := newPlayers;
    }
  }
}
