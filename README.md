# Monty Hall simulation, modelled in Dafny

This project models the Monty Hall simulator. The simulator plays the
three-door game over and over and counts how often staying and changing win.
A `Game` builds three doors and puts the car behind one of them. The player
picks a door. The host opens a goat door the player did not pick. The player
then stays or changes, and the game reports whether the final door holds the
car. Each trial is recorded as a `GameResults` (action, win). At the end the
results are counted as won/lost by changing and won/lost by staying.

Every random draw is an explicit parameter, constrained to the range
`Random.Next` gives it:

- the car's door, in [0, 3);
- the first pick, in [0, 3);
- the host's pick among the openable doors, in [0, 2), used only when more
  than one door can be opened;
- the stay-or-change draw, in [0, 2).

Layout, one module per part of the program:

- `types.dfy`, module `MontyTypes`: prizes (`Car`, `Goat`), the player
  actions (`Change`, `Stay`) and the two exceptions the game raises
  (`InvalidOperation`, `ArgumentOutOfRange`). It also holds the `Result` and
  `Outcome` types that carry those exceptions, and `DoorState`, the
  observable state of a door.
- `rules.dfy`, module `GameRules`: the game's operations as functions on the
  list of door states, and the lemmas about them. The main one is that
  staying and changing always have opposite outcomes.
- `game.dfy`, module `Games`: the `Door` and `Game` classes. Their methods
  update the door flags in place. Each method is proved to do what the
  matching function of `GameRules` says, including raising the same
  exception and then leaving the state unchanged.
- `host.dfy`, module `GameHost`: the host's policy, `OpenGoatDoor`.
- `player.dfy`, module `Player`: the player's policy, `ChooseAction` and
  `FirstChoice`.
- `simulation.dfy`, module `Simulation`: one trial as a function, the trial
  loop as a method proved against it, and the four counts.

Where the program's documentation and its code differ, the model follows the
code:

- Setting the first pick has no guard. It can be set twice, and it can be set
  on the door the host opened.
- `Game.SetHostChoice` does not check that the door holds a goat. Only the
  host's policy keeps the car door closed.
  `GameRules.StayAndChangeComplementary` therefore requires a legal reveal.
- The switching action is called `Change`.
- When only one door can be opened, the host makes no random draw at all.
- `SetHostChoice` can mark a second door as the host's door. The old flag
  stays set (see the frame in `GameRules.HostNeverOpensFirstChoice`).
- `ExecuteAction` can run again after a resolution. It resolves afresh and
  sets the final-pick flag again; resolution is not terminal.
- The host's choice is forced when the first pick is a goat, because only one
  goat door then remains. When the first pick is the car, two goat doors
  remain and the host draws between them (`GameHost.HostForcedWhenFirstIsGoat`,
  `GameHost.HostDrawsWhenFirstIsCar`).

## Model

| member | source | states |
|---|---|---|
| `GameRules.Initial` | MontyHall/Program.cs:89-100 | the door states a new game starts from: the car behind the drawn door, goats elsewhere, no flag set; its contract states three doors, no roles and the car exactly at the drawn index; further properties are stated by `GameRules.InitialPlacesOneCar` |
| `GameRules.SetHostFlag` | MontyHall/Program.cs:179-188 | the guarded `HostChoice` setter on one door: fails, with InvalidOperation, exactly when asked to mark the first pick; otherwise the flag takes the value and the other fields are kept; `Games.Door.SetHostChoice` is proved to follow it |
| `GameRules.SetDefinitiveFlag` | MontyHall/Program.cs:190-199 | the guarded `DefinitiveChoice` setter on one door: fails, with InvalidOperation, exactly when asked to mark the host's door; otherwise the flag takes the value and the other fields are kept; `Games.Door.SetDefinitiveChoice` is proved to follow it |
| `GameRules.SetFirstPlayerChoice` | MontyHall/Program.cs:102-105 | the doors after the first pick is marked; its contract states that it fails exactly on an out-of-range index and that on success the length is kept and the picked door is marked; further properties are stated by `GameRules.FirstChoiceMarksOneDoor` |
| `GameRules.SetHostChoice` | MontyHall/Program.cs:107-110 | the doors after the host's door is marked, or the exception raised by the index or by the door's guard; its contract states that success needs an in-range door other than the first pick, keeps the length and marks that door; further properties are stated by `GameRules.HostNeverOpensFirstChoice` |
| `GameRules.ExecuteAction` | MontyHall/Program.cs:112-122 | the doors after the final pick is marked and whether it won; its contract states that it fails exactly when no door is eligible or the eligible door is the host's, and keeps the length on success; further properties are stated by `GameRules.ExecuteMarksOnlyFinalDoor` and the three lemmas on Stay and Change |
| `GameHost.RemainingFrom` | MontyHall/Program.cs:227 | the `Where` filter from index `lo` on, as door indices; its contract bounds the result by the number of doors from `lo` on; further properties are stated by `GameHost.RemainingFromFilters` |
| `Simulation.PlayTrial` | MontyHall/Program.cs:36-51 | one trial composed from the rules and the two policies, or the exception a step raises; its properties are stated by `Simulation.TrialOutcome` |
| `GameRules.InitialPlacesOneCar` | MontyHall/Program.cs:89-100 | a new game has exactly 3 doors; the car is behind the drawn door `indexOfCar` and goats are behind the others; no role flag is set |
| `GameRules.FindIndex` | MontyHall/Program.cs:116-118 | returns the first index whose door satisfies the predicate, or -1 exactly when no door does |
| `GameRules.FirstChoiceMarksOneDoor` | MontyHall/Program.cs:102-105 | setting the first pick fails with ArgumentOutOfRange exactly when the index is out of range; otherwise only that door's first-pick flag changes |
| `GameRules.HostNeverOpensFirstChoice` | MontyHall/Program.cs:179-188 | marking the host's door succeeds exactly for an in-range door that is not the first pick; marking the first pick raises InvalidOperation; a successful reveal never lands on the first pick and changes nothing else |
| `GameRules.ExecuteMarksOnlyFinalDoor` | MontyHall/Program.cs:112-122 | resolving succeeds exactly when a door is eligible for the action and is not the host's door; the final-pick flag is set on that one door only; prizes and the other flags are kept; the result is a win exactly when that door holds the car |
| `GameRules.RevealedShape` | MontyHall/Program.cs:102-110 | after a first pick and a legal reveal, exactly one door carries each of the two flags, no door is a final pick, and the car has not moved |
| `GameRules.StayWinsIffFirstIsCar` | MontyHall/Program.cs:115-116 | staying ends on the first pick and wins exactly when the first pick is the car door |
| `GameRules.ChangeWinsIffFirstIsGoat` | MontyHall/Program.cs:117-118 | changing ends on the one door that is neither the first pick nor the opened door, and wins exactly when the first pick holds a goat |
| `GameRules.StayAndChangeComplementary` | MontyHall/Program.cs:112-122 | for every car position, every first pick and every legal reveal, both actions resolve, and exactly one of them wins |
| `Games.Door.constructor` | MontyHall/Program.cs:172-175 | a new door holds the given prize and has no flag set |
| `Games.Door.SetHostChoice` | MontyHall/Program.cs:179-188 | marking the player's first pick as the host's door raises InvalidOperation and changes nothing; any other call sets the flag to the value |
| `Games.Door.SetDefinitiveChoice` | MontyHall/Program.cs:190-199 | marking the host's door as the final pick raises InvalidOperation and changes nothing; any other call sets the flag to the value |
| `Games.Game.constructor` | MontyHall/Program.cs:89-100 | the constructor loop builds three fresh, distinct doors whose states are the initial placement for the drawn car door |
| `Games.Game.SetFirstPlayerChoice` | MontyHall/Program.cs:102-105 | the doors' new states and the raised exception are those of `GameRules.SetFirstPlayerChoice`; on an exception the states are unchanged |
| `Games.Game.SetHostChoice` | MontyHall/Program.cs:107-110 | the doors' new states and the raised exception are those of `GameRules.SetHostChoice` (index check, then the door's guard) |
| `Games.Game.ExecuteAction` | MontyHall/Program.cs:112-122 | the returned win flag or exception and the doors' new states are those of `GameRules.ExecuteAction` |
| `GameHost.RemainingFromFilters` | MontyHall/Program.cs:227 | the filter keeps exactly the doors that are not the first pick and hold a goat, in list order |
| `GameHost.Remaining` | MontyHall/Program.cs:227 | the candidate list holds exactly the openable door indices, each once, increasing |
| `GameHost.OpenGoatDoor` | MontyHall/Program.cs:225-237 | the returned index is in range, is not the first pick and holds a goat; ArgumentOutOfRange is raised exactly when no door qualifies |
| `GameHost.RemainingAfterFirstChoice` | MontyHall/Program.cs:227-228 | after a first pick in a one-car game there are two candidates when the first pick is the car and exactly one, the third door, when it is a goat |
| `GameHost.HostForcedWhenFirstIsGoat` | MontyHall/Program.cs:228-231 | when the first pick is a goat, the host opens the only other goat door, whatever the draw, and that reveal is legal |
| `GameHost.HostDrawsWhenFirstIsCar` | MontyHall/Program.cs:232-236 | when the first pick is the car there are two candidates, the host opens the one at the drawn position, and that reveal is legal |
| `GameHost.HostRevealIsLegal` | MontyHall/Program.cs:225-237 | for every car position, first pick and draw, the host opens a door that is neither the first pick nor the car |
| `Player.ChooseAction` | MontyHall/Program.cs:249-253 | a forced action is returned unchanged; an unforced one is Stay exactly when the draw is 0 and Change exactly when it is 1 |
| `Player.FirstChoice` | MontyHall/Program.cs:256-259 | the first pick is a door index in range |
| `Simulation.TrialOutcome` | MontyHall/Program.cs:36-51 | every trial completes without an exception; the recorded action is the player's draw; the trial wins exactly when staying meets a car first pick or changing meets a goat first pick |
| `Simulation.PlayGame` | MontyHall/Program.cs:36-51 | one pass through the loop body on the game objects records exactly the result of the trial function for the same draws |
| `Simulation.RunTrials` | MontyHall/Program.cs:34-52 | the loop records one result per iteration, in order, each equal to the trial function for that iteration's draws |
| `Simulation.CountWhere` | MontyHall/Program.cs:57-60 | a count of results with a given outcome and action never exceeds the number of results |
| `Simulation.CountAction` | MontyHall/Program.cs:61 | a count of results with a given action never exceeds the number of results |
| `Simulation.ActionCountSplits` | MontyHall/Program.cs:57-61 | for each action, its wins plus its losses equal the number of times it was taken |
| `Simulation.ActionsCoverResults` | MontyHall/Program.cs:61 | the number of changes plus the number of stays equals the number of results |
| `Simulation.CountResults` | MontyHall/Program.cs:57-60 | the four counts add up to the number of results, and each action's two counts add up to the times it was taken |
| `Simulation.CountsFollowFirstPick` | MontyHall/Program.cs:34-60 | over any run, wins by changing plus losses by staying equal the trials whose first pick missed the car; the other two counts equal the trials whose first pick hit it |
| `Simulation.Simulate` | MontyHall/Program.cs:29-60 | a run records one result per iteration, each the trial's result for its draws; each of the four counts is the number of recorded results with that outcome and action; they add up to the number of iterations and split by whether the first pick hit the car |

## Left out

- Console output, the `Game.Print` rendering and the final `Console.ReadLine`: these are I/O only.
- `Stopwatch` timing: it is instrumentation only.
- `RandomGenerator`, seeded from the clock: each draw is a parameter in its range. Nothing is stated about the draws' distribution.
- The percentages computed as `Double`, and the convergence of the rates to 2/3 and 1/3: these are floating-point and statistical claims. `GameRules.StayAndChangeComplementary` and `Simulation.CountsFollowFirstPick` are the deterministic facts stated instead.
- The fixed iteration count (10000000): `Simulation.Simulate` runs one trial per element of its draw sequence, of any length.
- The `long` counters and the `int` loop index: counts are unbounded naturals. At the program's iteration count, no overflow is possible.
- The `Price`/`Car`/`Goat` class hierarchy: it is the two-case datatype `Prize`.
- The `GameResults.Game` back-reference: it is stored but never read.
- The constructors of `Player` and `GameHost`: they hold no state. Their methods are the functions of modules `Player` and `GameHost`.
- `Door.FirstChoice` is an unguarded auto-property. `Games.Game.SetFirstPlayerChoice` assigns the field directly rather than through a setter method.
- The host's policy reads the game through `Games.Game.Snapshot`, the list of door states, instead of the `Game` object. `List.IndexOf` on distinct door objects is modelled by keeping door indices in the filtered list.
- Games with other than three doors are not modelled.
