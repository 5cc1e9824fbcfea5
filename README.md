# Deathroll turn state machine

Deathroll is a two-player dice game played in the browser. Each player
rolls a number from 1 up to the previous roll. Player 1 rolls first,
out of 500. Whoever rolls a 1 loses.

The page keeps four module-level variables: `player1Number`,
`player2Number`, `currentPlayer` and `currentMaxRoll`. A click on the roll
button changes them. A click on the restart button resets them. This
project models those variables and the two click handlers, and proves
what the game rules promise about them.

- `Rules.dfy` (module `Rules`) holds the state as a value, `GameState`.
  It adds an `over` flag, which stands for the page hiding the roll button
  and showing the restart button.
  - `Step` is one click of the roll button.
  - `Play` is a series of clicks. It gives `None` when a draw is one the
    page could not produce at that point.
  - `Valid` is the invariant that every reachable state satisfies.
  - The lemmas state the rules: the ceiling never grows, the turn
    alternates, the game ends only on a 1 and names the roller as loser,
    and nothing can be rolled afterwards.
- `Game.dfy` (module `Game`) holds the class `DeathrollGame`. Its fields
  are the page's variables. `Roll` and `Restart` update them in place, in
  the same branches as the click handlers. A ghost field `history` records
  the draws made since the last restart. The object invariant says the
  fields are exactly `Play(Initial(), history)`.

The random draw `Math.floor(Math.random() * currentMaxRoll) + 1` is a
parameter `r` of `Roll`. Its precondition `1 <= r <= currentMaxRoll`
states the range that expression produces.

The source has no error for rolling after a loss. It hides the roll
button instead, so no further click can reach the handler. The model
follows the code and makes `!over` a precondition of `Roll`. It does not
invent an error result. `RollPossibleIffNotOver` proves that in a valid
state some draw is possible exactly when the game is not over.

## Model

| member | source | states |
|---|---|---|
| `Rules.Other` | script.js:128 | the player handed the turn is 1 or 2 and is never the player who just rolled |
| `Rules.InitialValid` | script.js:13-16 | the starting state (both numbers and the ceiling 500, player 1 on turn) satisfies the invariant, rolling is possible and there is no loser yet |
| `Rules.RollOutcome` | script.js:105-156 | one click: the draw becomes the roller's number and the ceiling, so the ceiling is at least 1 and at most what it was; the other player's number is unchanged; a 1 ends the game with the turn left on the roller, who is the loser; any other draw flips the turn |
| `Rules.StepValid` | script.js:105-156 | one click keeps the invariant: turn is 1 or 2, the ceiling equals the number of the player who set it and is at most both numbers, and the game is over exactly when the ceiling is 1 |
| `Rules.RollPossibleIffNotOver` | script.js:121-126 | in a valid state some draw is possible exactly when the game is not over, and an unfinished game has a ceiling of at least 2 |
| `Rules.PlayAppend` | script.js:105-156 | clicking through draws `a` and then draws `b` gives the same result as clicking through `a + b` |
| `Rules.PlayValid` | script.js:105-156 | every series of clicks from a valid state ends in a valid state |
| `Rules.PlayCeiling` | script.js:108-114 | in any possible series every draw lies in [1, starting ceiling], the draws never increase, and the final ceiling is the last draw |
| `Rules.PlayEndsOnOne` | script.js:121-126 | in any possible series no draw before the last is a 1, and the game is over afterwards exactly when the last draw is a 1 (or it was already over and nothing was drawn) |
| `Rules.PlayAlternates` | script.js:152 | the turn alternates strictly: after an even number of clicks the starting player is on turn, after an odd number the other one; a series that ends the game names its last roller as loser |
| `Rules.ScenarioTwoTurns` | script.js:105-156 | from the start, draws 250 then 1 leave ceiling 1, player 1 at 250, player 2 at 1 and on turn, the game over with player 2 the loser |
| `Rules.ScenarioFirstRollIsOne` | script.js:121-126 | from the start, a first draw of 1 ends the game with player 1 on turn as the loser |
| `Game.DeathrollGame.constructor` | script.js:13-16 | the page loads with both numbers and the ceiling at 500, player 1 on turn and the roll button shown |
| `Game.DeathrollGame.Roll` | script.js:105-156 | a click with a draw in [1, currentMaxRoll] while the game is not over changes the fields exactly as `Step` does: the ceiling becomes the draw; the roller's number becomes the draw and the other number is kept; over iff the draw is 1; otherwise the turn flips. The object invariant is kept and the draw is appended to the history |
| `Game.DeathrollGame.Restart` | script.js:159-174 | from any state, both numbers and the ceiling return to 500, player 1 is on turn, the game is not over and the history is empty |

## Left out

- The Three.js renderer, scene, camera, lights, grid, particles, dice mesh and animation loop (script.js:18-92): presentation through an external 3D library, with float positions and rotations.
- The window resize handler (script.js:95-99): presentation only.
- `Math.random()` and the float arithmetic that scales it (script.js:108, 132): replaced by the integer draw `r`, constrained to the range that expression produces. Uniformity is not modelled.
- All `textContent` and `style.display` writes, the `setTimeout` dice animation and the colour changes: presentation only. The button visibility is kept only as the `over` flag.
- Termination of a game: a roll may equal the ceiling, so the ceiling is only non-increasing. The source promises no bound on the number of turns, and none is claimed.
- The alternative page `Deathroll 500 dice.js`, a physics-driven die with no game state, is not part of this model.
