/** The rules of Deathroll, as values: the four game-state variables of the
    page plus the game-over flag that the button visibility encodes, one
    click of the roll button (Step), a series of clicks (Play), and what the
    rules guarantee about them. */
module Rules {

  datatype Option<T> = None | Some(value: T)

  /** Both players' numbers and the first ceiling. */
  const StartingNumber: int := 500

  /** The page's game state. `currentPlayer` is 1 or 2 in every reachable
      state; `over` is true while the roll button is hidden and the restart
      button shown. */
  datatype GameState = GameState(
    player1Number: int,
    player2Number: int,
    currentPlayer: int,
    currentMaxRoll: int,
    over: bool)

  /** The state the page loads with, and the one restart puts back. */
  function Initial(): GameState {
    GameState(StartingNumber, StartingNumber, 1, StartingNumber, false)
  }

  /** The player who moves after `p`: the first branch of the click handler
      hands over to 2, the other branch to 1. */
  function Other(p: int): (q: int)
    ensures q == 1 || q == 2
    ensures q != p
  {
    if p == 1 then 2 else 1
  }

  /** The number shown for player `p` (1, or any other value for player 2,
      as the handler's if/else reads it). */
  function Number(s: GameState, p: int): int {
    if p == 1 then s.player1Number else s.player2Number
  }

  /** The player whose roll set the current ceiling: the loser once the game
      is over, otherwise the player who is not on turn. */
  function LastRoller(s: GameState): int {
    if s.over then s.currentPlayer else Other(s.currentPlayer)
  }

  /** The loser, once there is one. */
  function Loser(s: GameState): Option<int> {
    if s.over then Some(s.currentPlayer) else None
  }

  /** A click with draw `r` is possible: the roll button is shown and the
      draw is one that `floor(random() * currentMaxRoll) + 1` can produce. */
  predicate CanRoll(s: GameState, r: int) {
    !s.over && 1 <= r <= s.currentMaxRoll
  }

  /** One click of the roll button with draw `r`: the draw becomes the
      current player's number and the new ceiling; a 1 ends the game with
      the turn left on the loser, anything else hands the turn over. */
  function Step(s: GameState, r: int): GameState
    requires CanRoll(s, r)
  {
    var rolled := if s.currentPlayer == 1 then s.(player1Number := r)
                  else s.(player2Number := r);
    if r == 1 then rolled.(currentMaxRoll := r, over := true)
    else rolled.(currentMaxRoll := r, currentPlayer := Other(s.currentPlayer))
  }

  /** The state after clicking roll once per draw in `draws`, or None when
      some draw is not one the page can produce at that point (out of range,
      or after the game is over). */
  function Play(s: GameState, draws: seq<int>): Option<GameState>
    decreases |draws|
  {
    if draws == [] then Some(s)
    else if !CanRoll(s, draws[0]) then None
    else Play(Step(s, draws[0]), draws[1..])
  }

  /** The invariant of every reachable state: the turn is 1 or 2; the
      ceiling lies in [1, 500], equals the number of the player whose roll
      set it, and is at most either player's number; and the game is over
      exactly when the ceiling has reached 1. */
  predicate Valid(s: GameState) {
    && (s.currentPlayer == 1 || s.currentPlayer == 2)
    && 1 <= s.currentMaxRoll
    && s.currentMaxRoll <= s.player1Number <= StartingNumber
    && s.currentMaxRoll <= s.player2Number <= StartingNumber
    && s.currentMaxRoll == Number(s, LastRoller(s))
    && (s.over <==> s.currentMaxRoll == 1)
  }

  /** Restart yields a valid state in which rolling is possible. */
  lemma InitialValid()
    ensures Valid(Initial())
    ensures !Initial().over && Initial().currentPlayer == 1
    ensures Loser(Initial()) == None
  {
  }

  /** What one click does: the draw becomes the roller's number and the
      ceiling (so the ceiling never grows and stays at least 1), the other
      player's number is untouched, a 1 ends the game with the roller as
      loser and the turn unchanged, anything else flips the turn. */
  lemma RollOutcome(s: GameState, r: int)
    requires CanRoll(s, r)
    ensures var t := Step(s, r);
      && t.currentMaxRoll == r
      && 1 <= t.currentMaxRoll <= s.currentMaxRoll
      && Number(t, s.currentPlayer) == r
      && Number(t, Other(s.currentPlayer)) == Number(s, Other(s.currentPlayer))
      && (r == 1 ==> t.over && t.currentPlayer == s.currentPlayer
                     && Loser(t) == Some(s.currentPlayer))
      && (r != 1 ==> !t.over && t.currentPlayer == Other(s.currentPlayer))
  {
  }

  /** One click keeps the invariant. */
  lemma StepValid(s: GameState, r: int)
    requires Valid(s) && CanRoll(s, r)
    ensures Valid(Step(s, r))
  {
  }

  /** In a valid state some draw is possible exactly when the game is not
      over: after a 1 no draw is accepted, and before it the ceiling is at
      least 2, so both 1 and the ceiling itself can be drawn. */
  lemma RollPossibleIffNotOver(s: GameState)
    requires Valid(s)
    ensures (exists r :: CanRoll(s, r)) <==> !s.over
    ensures !s.over ==> s.currentMaxRoll >= 2
  {
    if !s.over {
      assert CanRoll(s, 1);
    }
  }

  /** Clicks one after the other: playing `a` then `b` is playing `a + b`. */
  lemma {:induction false} PlayAppend(s: GameState, a: seq<int>, b: seq<int>)
    ensures Play(s, a + b) ==
      match Play(s, a)
      case None => None
      case Some(m) => Play(m, b)
    decreases |a|
  {
    if a != [] {
      assert (a + b)[0] == a[0];
      assert (a + b)[1..] == a[1..] + b;
      if CanRoll(s, a[0]) {
        PlayAppend(Step(s, a[0]), a[1..], b);
      }
    } else {
      assert a + b == b;
    }
  }

  /** Any series of clicks keeps the invariant. */
  lemma {:induction false} PlayValid(s: GameState, draws: seq<int>)
    requires Valid(s)
    requires Play(s, draws).Some?
    ensures Valid(Play(s, draws).value)
    decreases |draws|
  {
    if draws != [] {
      StepValid(s, draws[0]);
      PlayValid(Step(s, draws[0]), draws[1..]);
    }
  }

  /** The draws of a possible series lie in [1, ceiling at the start] and
      never increase; the final ceiling is the last draw, and so is no
      larger than the ceiling at the start. */
  lemma {:induction false} PlayCeiling(s: GameState, draws: seq<int>)
    requires Play(s, draws).Some?
    ensures forall i :: 0 <= i < |draws| ==> 1 <= draws[i] <= s.currentMaxRoll
    ensures forall i :: 0 < i < |draws| ==> draws[i] <= draws[i - 1]
    ensures Play(s, draws).value.currentMaxRoll <= s.currentMaxRoll
    ensures draws != [] ==> Play(s, draws).value.currentMaxRoll == draws[|draws| - 1]
    decreases |draws|
  {
    if draws != [] {
      var t := Step(s, draws[0]);
      var rest := draws[1..];
      PlayCeiling(t, rest);
      forall i | 0 < i < |draws|
        ensures draws[i] <= draws[i - 1]
      {
        assert draws[i] == rest[i - 1];
        if i > 1 {
          assert draws[i - 1] == rest[i - 2];
        }
      }
    }
  }

  /** A game ends only on a 1, and only at the last click of a series: no
      draw before the last is a 1, and the game is over afterwards exactly
      when it already was (with no clicks) or the last draw is a 1. */
  lemma {:induction false} PlayEndsOnOne(s: GameState, draws: seq<int>)
    requires Play(s, draws).Some?
    ensures forall i :: 0 <= i < |draws| - 1 ==> draws[i] != 1
    ensures Play(s, draws).value.over <==>
      (if draws == [] then s.over else draws[|draws| - 1] == 1)
    decreases |draws|
  {
    if draws != [] {
      var t := Step(s, draws[0]);
      var rest := draws[1..];
      PlayEndsOnOne(t, rest);
      if rest != [] {
        assert t.over ==> Play(t, rest).None?;
      }
      forall i | 0 <= i < |draws| - 1
        ensures draws[i] != 1
      {
        if i > 0 {
          assert draws[i] == rest[i - 1];
        }
      }
    }
  }

  /** The turn alternates strictly: after an even number of clicks the
      starting player is on turn again, after an odd number the other one;
      when a series ends the game, the player named as loser is the one who
      made its last click. */
  lemma {:induction false} PlayAlternates(s: GameState, draws: seq<int>)
    requires s.currentPlayer == 1 || s.currentPlayer == 2
    requires Play(s, draws).Some?
    ensures var t := Play(s, draws).value;
      && (!t.over ==>
            t.currentPlayer == if |draws| % 2 == 0 then s.currentPlayer else Other(s.currentPlayer))
      && (t.over && draws != [] ==>
            Loser(t) == Some(if |draws| % 2 == 1 then s.currentPlayer else Other(s.currentPlayer)))
    decreases |draws|
  {
    if draws != [] {
      var t := Step(s, draws[0]);
      var rest := draws[1..];
      if draws[0] != 1 {
        PlayAlternates(t, rest);
        assert Other(Other(s.currentPlayer)) == s.currentPlayer;
      }
    }
  }

  /** From the start, draws of 250 and then 1: player 1 moves to 250,
      player 2 rolls the 1 and loses. */
  lemma ScenarioTwoTurns()
    ensures Play(Initial(), [250, 1]) ==
      Some(GameState(250, 1, 2, 1, true))
    ensures Loser(Play(Initial(), [250, 1]).value) == Some(2)
  {
  }

  /** From the start, a first draw of 1 makes player 1 the loser. */
  lemma ScenarioFirstRollIsOne()
    ensures Play(Initial(), [1]) == Some(GameState(1, 500, 1, 1, true))
  {
  }
}
