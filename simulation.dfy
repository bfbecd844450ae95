/** The simulation: each trial builds a game, lets the player pick, the host
    open a goat door and the player stay or change, and records the action
    and whether it won; the records are then counted by action and outcome. */
module Simulation {
  import opened MontyTypes
  import opened GameRules
  import opened GameHost
  import opened Player
  import opened Games

  /** The four random draws of one trial, in the order the trial makes them:
      the car's door, the first pick, the host's pick among two openable
      doors (unused when the host has a single door to open) and the
      stay-or-change draw. */
  datatype TrialDraws = TrialDraws(car: int, first: int, host: int, action: int)

  /** Every draw lies in the range the random source produces for it. */
  predicate InRange(d: TrialDraws)
  {
    0 <= d.car < DoorsNumber && 0 <= d.first < DoorsNumber && 0 <= d.host < 2 && 0 <= d.action < 2
  }

  /** The record of one trial: the action taken and whether it won. */
  datatype GameResults = GameResults(chosenAction: PlayerAction, win: bool)

  /** One trial as a composition of the game rules and the two policies; an
      exception raised by any step is the trial's failure. */
  function PlayTrial(d: TrialDraws): Result<GameResults>
    requires InRange(d)
  {
    var s0 := Initial(d.car);
    var s1 :- SetFirstPlayerChoice(s0, FirstChoice(|s0|, d.first));
    RemainingAfterFirstChoice(d.car, d.first);
    var hostDoor :- OpenGoatDoor(s1, d.host);
    var s2 :- SetHostChoice(s1, hostDoor);
    var action := ChooseAction(None, d.action);
    var r :- ExecuteAction(s2, action);
    Success(GameResults(action, r.win))
  }

  /** Every trial completes without an exception; its action is the
      player's draw, and it wins exactly when changing meets a goat first
      pick or staying meets a car first pick. */
  lemma TrialOutcome(d: TrialDraws)
    requires InRange(d)
    ensures PlayTrial(d).Success?
    ensures PlayTrial(d).value.chosenAction == ChooseAction(None, d.action)
    ensures PlayTrial(d).value.win <==> (PlayTrial(d).value.chosenAction == Stay <==> d.first == d.car)
  {
    HostRevealIsLegal(d.car, d.first, d.host);
    var host := OpenGoatDoor(AfterFirstChoice(d.car, d.first), d.host).value;
    StayWinsIffFirstIsCar(d.car, d.first, host);
    ChangeWinsIffFirstIsGoat(d.car, d.first, host);
  }

  /** One iteration of the trial loop: build a game, apply the two policies
      to it, resolve the action and record the result. */
  method PlayGame(d: TrialDraws) returns (gameResults: GameResults)
    requires InRange(d)
    ensures PlayTrial(d) == Success(gameResults)
  {
    TrialOutcome(d);
    HostRevealIsLegal(d.car, d.first, d.host);
    var game := new Game(d.car);
    var chosenFirstDoorIndex := FirstChoice(|game.doors|, d.first);
    var firstSet := game.SetFirstPlayerChoice(chosenFirstDoorIndex);
    assert game.Snapshot() == AfterFirstChoice(d.car, d.first);
    var hostPick := OpenGoatDoor(game.Snapshot(), d.host);
    var chosenHostDoorIndex := hostPick.value;
    var hostSet := game.SetHostChoice(chosenHostDoorIndex);
    var chosenAction := ChooseAction(None, d.action);
    var win := game.ExecuteAction(chosenAction);
    assert firstSet == Pass && hostSet == Pass && win.Success?;
    gameResults := GameResults(chosenAction, win.value);
  }

  /** The trial loop: one game per set of draws, each result appended in
      order. */
  method RunTrials(draws: seq<TrialDraws>) returns (results: seq<GameResults>)
    requires forall i :: 0 <= i < |draws| ==> InRange(draws[i])
    ensures |results| == |draws|
    ensures forall i :: 0 <= i < |draws| ==> PlayTrial(draws[i]) == Success(results[i])
  {
    results := [];
    for i := 0 to |draws|
      invariant |results| == i
      invariant forall j :: 0 <= j < i ==> PlayTrial(draws[j]) == Success(results[j])
    {
      var gameResults := PlayGame(draws[i]);
      results := results + [gameResults];
    }
  }

  /** The number of results with the given outcome and action (one of the
      four counting queries). */
  function CountWhere(results: seq<GameResults>, win: bool, action: PlayerAction): (n: nat)
    ensures n <= |results|
  {
    if results == [] then 0
    else
      var hit := if results[0].win == win && results[0].chosenAction == action then 1 else 0;
      hit + CountWhere(results[1..], win, action)
  }

  /** The number of results with the given action, whatever the outcome. */
  function CountAction(results: seq<GameResults>, action: PlayerAction): (n: nat)
    ensures n <= |results|
  {
    if results == [] then 0
    else (if results[0].chosenAction == action then 1 else 0) + CountAction(results[1..], action)
  }

  /** The counts taken after the loop. */
  datatype Tally = Tally(wonChanging: nat, lostChanging: nat, wonStaying: nat, lostStaying: nat)

  /** For each action, its wins and its losses add up to the times it was taken. */
  lemma {:induction false} ActionCountSplits(results: seq<GameResults>, action: PlayerAction)
    ensures CountAction(results, action) == CountWhere(results, true, action) + CountWhere(results, false, action)
  {
    if results != [] {
      ActionCountSplits(results[1..], action);
    }
  }

  /** Every result is counted by exactly one of the two actions. */
  lemma {:induction false} ActionsCoverResults(results: seq<GameResults>)
    ensures CountAction(results, Change) + CountAction(results, Stay) == |results|
  {
    if results != [] {
      ActionsCoverResults(results[1..]);
    }
  }

  /** The four counts over the results: they add up to the number of results,
      and each action's two counts add up to the times it was taken. */
  function CountResults(results: seq<GameResults>): (t: Tally)
    ensures t.wonChanging + t.lostChanging + t.wonStaying + t.lostStaying == |results|
    ensures t.wonChanging + t.lostChanging == CountAction(results, Change)
    ensures t.wonStaying + t.lostStaying == CountAction(results, Stay)
  {
    ActionCountSplits(results, Change);
    ActionCountSplits(results, Stay);
    ActionsCoverResults(results);
    Tally(CountWhere(results, true, Change), CountWhere(results, false, Change),
          CountWhere(results, true, Stay), CountWhere(results, false, Stay))
  }

  /** The number of trials whose first pick missed the car. */
  function FirstPickMissed(draws: seq<TrialDraws>): (n: nat)
    ensures n <= |draws|
  {
    if draws == [] then 0
    else (if draws[0].first != draws[0].car then 1 else 0) + FirstPickMissed(draws[1..])
  }

  /** Over any run, the trials won by changing plus those lost by staying are
      exactly the trials whose first pick missed the car; the other two
      counts are exactly the trials whose first pick hit it. */
  lemma {:induction false} CountsFollowFirstPick(draws: seq<TrialDraws>, results: seq<GameResults>)
    requires forall i :: 0 <= i < |draws| ==> InRange(draws[i])
    requires |results| == |draws|
    requires forall i :: 0 <= i < |draws| ==> PlayTrial(draws[i]) == Success(results[i])
    ensures CountWhere(results, true, Change) + CountWhere(results, false, Stay) == FirstPickMissed(draws)
    ensures CountWhere(results, true, Stay) + CountWhere(results, false, Change) == |draws| - FirstPickMissed(draws)
  {
    if draws != [] {
      TrialOutcome(draws[0]);
      CountsFollowFirstPick(draws[1..], results[1..]);
    }
  }

  /** The whole simulation without its output: run the trials, then take the
      four counts. */
  method Simulate(draws: seq<TrialDraws>) returns (results: seq<GameResults>, tally: Tally)
    requires forall i :: 0 <= i < |draws| ==> InRange(draws[i])
    ensures |results| == |draws|
    ensures forall i :: 0 <= i < |draws| ==> PlayTrial(draws[i]) == Success(results[i])
    ensures tally.wonChanging == CountWhere(results, true, Change)
    ensures tally.lostChanging == CountWhere(results, false, Change)
    ensures tally.wonStaying == CountWhere(results, true, Stay)
    ensures tally.lostStaying == CountWhere(results, false, Stay)
    ensures tally.wonChanging + tally.lostChanging + tally.wonStaying + tally.lostStaying == |draws|
    ensures tally.wonChanging + tally.lostStaying == FirstPickMissed(draws)
    ensures tally.wonStaying + tally.lostChanging == |draws| - FirstPickMissed(draws)
  {
    results := RunTrials(draws);
    tally := CountResults(results);
    CountsFollowFirstPick(draws, results);
  }
}
