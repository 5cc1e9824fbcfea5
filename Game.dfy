/** The page's mutable game state and its two click handlers: rolling and
    restarting change the four game variables in place. */
module Game {
  import opened Rules

  class DeathrollGame {
    var player1Number: int
    var player2Number: int
    var currentPlayer: int
    var currentMaxRoll: int
    // true while the roll button is hidden and the restart button shown
    var over: bool

    // the draws made since the last restart, in order
    ghost var history: seq<int>

    /** The variables as a value of the rules. */
    function State(): GameState
      reads this
    {
      GameState(player1Number, player2Number, currentPlayer, currentMaxRoll, over)
    }

    /** The object holds exactly what the draws since the last restart
        produce, so it also satisfies the rules' invariant. */
    ghost predicate Valid()
      reads this
    {
      Play(Initial(), history) == Some(State()) && Rules.Valid(State())
    }

    /** The page as loaded: both numbers and the ceiling 500, player 1 on
        turn, the roll button shown. */
    constructor ()
      ensures Valid() && history == []
      ensures State() == Initial()
    {
      InitialValid();
      player1Number := StartingNumber;
      player2Number := StartingNumber;
      currentPlayer := 1;
      currentMaxRoll := StartingNumber;
      over := false;
      history := [];
    }

    /** A click on the roll button with draw `r`, which the page draws
        uniformly from [1, currentMaxRoll]. */
    method Roll(r: int)
      requires Valid()
      requires !over && 1 <= r <= currentMaxRoll
      modifies this
      ensures Valid() && history == old(history) + [r]
      ensures State() == Step(old(State()), r)
      ensures currentMaxRoll == r && r <= old(currentMaxRoll)
      ensures old(currentPlayer) == 1 ==> player1Number == r && player2Number == old(player2Number)
      ensures old(currentPlayer) == 2 ==> player2Number == r && player1Number == old(player1Number)
      ensures over <==> r == 1
      ensures currentPlayer == if r == 1 then old(currentPlayer) else Other(old(currentPlayer))
    {
      StepValid(State(), r);
      PlayAppend(Initial(), history, [r]);
      history := history + [r];
      if currentPlayer == 1 {
        player1Number := r;
        currentMaxRoll := r;
        if player1Number == 1 {
          over := true;
          return;
        }
        currentPlayer := 2;
      } else {
        player2Number := r;
        currentMaxRoll := r;
        if player2Number == 1 {
          over := true;
          return;
        }
        currentPlayer := 1;
      }
    }

    /** A click on the restart button, from any state: numbers and ceiling
        back to 500, player 1 on turn, rolling possible again. */
    method Restart()
      modifies this
      ensures Valid() && history == []
      ensures State() == Initial()
      ensures player1Number == 500 && player2Number == 500 && currentMaxRoll == 500
      ensures currentPlayer == 1 && !over
    {
      InitialValid();
      player1Number := StartingNumber;
      player2Number := StartingNumber;
      currentPlayer := 1;
      currentMaxRoll := StartingNumber;
      over := false;
      history := [];
    }
  }

  /** A caller's view: a game where player 1 draws 250 and player 2 then
      draws 1 ends with player 2 as the loser, and a restart opens a new one. */
  method TwoTurnsThenRestart()
  {
    var game := new DeathrollGame();
    game.Roll(250);
    assert game.currentPlayer == 2 && !game.over;
    game.Roll(1);
    assert game.currentMaxRoll == 1 && game.player1Number == 250 && game.player2Number == 1;
    assert game.over && Loser(game.State()) == Some(2);
    game.Restart();
    assert game.State() == Initial() && !game.over;
  }
}
