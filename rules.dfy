/** The rules of one game, stated on the list of door states: where the car
    is placed, how the three role flags may be set, and how the player's
    action is resolved into a final door. The `Game` and `Door` classes are
    proved to follow these functions step by step. */
module GameRules {
  import opened MontyTypes

  /** The doors of a freshly built game: the car behind door `indexOfCar`,
      goats behind the others, no role flag set. */
  function Initial(indexOfCar: int): (s: seq<DoorState>)
    ensures |s| == DoorsNumber && NoRoles(s)
    ensures forall i :: 0 <= i < |s| ==> (s[i].price == Car <==> i == indexOfCar)
  {
    seq(DoorsNumber, i => DoorState(if i == indexOfCar then Car else Goat, false, false, false))
  }

  /** Door `c` holds the car and every other door holds a goat. */
  predicate CarAt(s: seq<DoorState>, c: int)
  {
    0 <= c < |s| && forall i :: 0 <= i < |s| ==> (s[i].price == Car <==> i == c)
  }

  /** No door carries any role flag yet. */
  predicate NoRoles(s: seq<DoorState>)
  {
    forall i :: 0 <= i < |s| ==> !s[i].firstChoice && !s[i].hostChoice && !s[i].definitiveChoice
  }

  /** Two door lists hold the same prizes in the same order. */
  predicate SamePrizes(s: seq<DoorState>, t: seq<DoorState>)
  {
    |s| == |t| && forall i :: 0 <= i < |s| ==> s[i].price == t[i].price
  }

  lemma InitialPlacesOneCar(indexOfCar: int)
    requires 0 <= indexOfCar < DoorsNumber
    ensures |Initial(indexOfCar)| == DoorsNumber
    ensures CarAt(Initial(indexOfCar), indexOfCar)
    ensures NoRoles(Initial(indexOfCar))
  {
  }

  /** The index of the first door that satisfies `p`, or -1 when none does
      (the behaviour of `List.FindIndex`). */
  function FindIndex(s: seq<DoorState>, p: DoorState -> bool): (r: int)
    ensures -1 <= r < |s|
    ensures r == -1 ==> forall i :: 0 <= i < |s| ==> !p(s[i])
    ensures r >= 0 ==> p(s[r]) && forall i :: 0 <= i < r ==> !p(s[i])
  {
    if s == [] then -1
    else if p(s[0]) then 0
    else
      var k := FindIndex(s[1..], p);
      if k == -1 then -1 else k + 1
  }

  /** The guarded `HostChoice` setter of a door: the host may not mark the
      player's first pick. */
  function SetHostFlag(d: DoorState, value: bool): (r: Result<DoorState>)
    ensures r.Failure? <==> value && d.firstChoice
    ensures r.Failure? ==> r.error == InvalidOperation
    ensures r.Success? ==> (r.value.hostChoice == value && r.value.price == d.price &&
                            r.value.firstChoice == d.firstChoice && r.value.definitiveChoice == d.definitiveChoice)
  {
    if value && d.firstChoice then Failure(InvalidOperation) else Success(d.(hostChoice := value))
  }

  /** The guarded `DefinitiveChoice` setter of a door: the player may not end
      on the door the host opened. */
  function SetDefinitiveFlag(d: DoorState, value: bool): (r: Result<DoorState>)
    ensures r.Failure? <==> value && d.hostChoice
    ensures r.Failure? ==> r.error == InvalidOperation
    ensures r.Success? ==> (r.value.definitiveChoice == value && r.value.price == d.price &&
                            r.value.firstChoice == d.firstChoice && r.value.hostChoice == d.hostChoice)
  {
    if value && d.hostChoice then Failure(InvalidOperation) else Success(d.(definitiveChoice := value))
  }

  /** Marks door `chosenFirstDoor` as the player's first pick; the flag has no guard. */
  function SetFirstPlayerChoice(s: seq<DoorState>, chosenFirstDoor: int): (r: Result<seq<DoorState>>)
    ensures r.Failure? <==> !(0 <= chosenFirstDoor < |s|)
    ensures r.Success? ==> |r.value| == |s| && r.value[chosenFirstDoor].firstChoice
  {
    if 0 <= chosenFirstDoor < |s| then Success(s[chosenFirstDoor := s[chosenFirstDoor].(firstChoice := true)])
    else Failure(ArgumentOutOfRange)
  }

  /** Marks door `chosenHostDoor` as the door the host opens, through the guarded setter. */
  function SetHostChoice(s: seq<DoorState>, chosenHostDoor: int): (r: Result<seq<DoorState>>)
    ensures r.Success? ==> (0 <= chosenHostDoor < |s| && !s[chosenHostDoor].firstChoice &&
                            |r.value| == |s| && r.value[chosenHostDoor].hostChoice)
  {
    if 0 <= chosenHostDoor < |s| then
      var d :- SetHostFlag(s[chosenHostDoor], true);
      Success(s[chosenHostDoor := d])
    else Failure(ArgumentOutOfRange)
  }

  /** Which doors an action can end on: staying keeps the first pick,
      changing takes a door that is neither the first pick nor the host's. */
  function Eligible(action: PlayerAction): DoorState -> bool
  {
    match action
    case Stay => (d: DoorState) => d.firstChoice
    case Change => (d: DoorState) => !d.firstChoice && !d.hostChoice
  }

  /** The index of the door an action ends on, -1 when there is none. */
  function FinalDoor(s: seq<DoorState>, action: PlayerAction): int
  {
    FindIndex(s, Eligible(action))
  }

  /** The doors after the final pick, and whether that pick won the car. */
  datatype Resolution = Resolution(doors: seq<DoorState>, win: bool)

  /** Resolves the player's action into a final door, marks it through the
      guarded setter and reports whether it holds the car. */
  function ExecuteAction(s: seq<DoorState>, action: PlayerAction): (r: Result<Resolution>)
    ensures r.Failure? <==> FinalDoor(s, action) < 0 || s[FinalDoor(s, action)].hostChoice
    ensures r.Success? ==> |r.value.doors| == |s|
  {
    var k := FinalDoor(s, action);
    if k < 0 then Failure(ArgumentOutOfRange)
    else
      var d :- SetDefinitiveFlag(s[k], true);
      Success(Resolution(s[k := d], d.price == Car))
  }

  /** The doors after the player picked `first` and the host opened `host`,
      starting from a game with the car behind door `car`. */
  function Revealed(car: int, first: int, host: int): Result<seq<DoorState>>
  {
    var s :- SetFirstPlayerChoice(Initial(car), first);
    SetHostChoice(s, host)
  }

  /** A reveal the host is allowed to make: a goat door other than the
      player's first pick. */
  predicate LegalReveal(car: int, first: int, host: int)
  {
    0 <= car < DoorsNumber && 0 <= first < DoorsNumber && 0 <= host < DoorsNumber &&
    host != first && host != car
  }

  // ----- Properties of the rules -----

  /** Setting the first pick succeeds exactly for an index in range and then
      changes only that door's first-pick flag. */
  lemma FirstChoiceMarksOneDoor(s: seq<DoorState>, i: int)
    ensures SetFirstPlayerChoice(s, i).Failure? <==> !(0 <= i < |s|)
    ensures SetFirstPlayerChoice(s, i).Failure? ==> SetFirstPlayerChoice(s, i).error == ArgumentOutOfRange
    ensures SetFirstPlayerChoice(s, i).Success? ==>
      var t := SetFirstPlayerChoice(s, i).value;
      SamePrizes(s, t) &&
      forall j :: 0 <= j < |s| ==>
        t[j].firstChoice == (j == i || s[j].firstChoice) &&
        t[j].hostChoice == s[j].hostChoice && t[j].definitiveChoice == s[j].definitiveChoice
  {
  }

  /** The host may not open the player's first pick: marking it fails, and
      every successful reveal marks a door that is not the first pick. */
  lemma HostNeverOpensFirstChoice(s: seq<DoorState>, i: int)
    ensures SetHostChoice(s, i).Success? <==> 0 <= i < |s| && !s[i].firstChoice
    ensures 0 <= i < |s| && s[i].firstChoice ==> SetHostChoice(s, i) == Failure(InvalidOperation)
    ensures !(0 <= i < |s|) ==> SetHostChoice(s, i) == Failure(ArgumentOutOfRange)
    ensures SetHostChoice(s, i).Success? ==>
      var t := SetHostChoice(s, i).value;
      SamePrizes(s, t) && t[i].hostChoice && !t[i].firstChoice &&
      forall j :: 0 <= j < |s| ==>
        t[j].hostChoice == (j == i || s[j].hostChoice) &&
        t[j].firstChoice == s[j].firstChoice && t[j].definitiveChoice == s[j].definitiveChoice
  {
  }

  /** Resolving an action marks exactly one door, the resolved one, as the
      final pick; that door is never the one the host opened; no prize and
      no other flag changes; the game is won exactly when that door holds
      the car. */
  lemma ExecuteMarksOnlyFinalDoor(s: seq<DoorState>, action: PlayerAction)
    ensures var k := FinalDoor(s, action);
      ExecuteAction(s, action).Success? <==> 0 <= k < |s| && !s[k].hostChoice
    ensures ExecuteAction(s, action).Success? ==>
      var k := FinalDoor(s, action);
      var r := ExecuteAction(s, action).value;
      0 <= k < |s| && Eligible(action)(s[k]) && !s[k].hostChoice &&
      SamePrizes(s, r.doors) &&
      (r.win <==> s[k].price == Car) &&
      forall j :: 0 <= j < |s| ==>
        r.doors[j].definitiveChoice == (j == k || s[j].definitiveChoice) &&
        r.doors[j].firstChoice == s[j].firstChoice && r.doors[j].hostChoice == s[j].hostChoice
  {
  }

  /** After a first pick and a legal reveal, exactly one door carries each of
      the two flags set so far, and the car has not moved. */
  lemma RevealedShape(car: int, first: int, host: int)
    requires LegalReveal(car, first, host)
    ensures Revealed(car, first, host).Success?
    ensures var s := Revealed(car, first, host).value;
      |s| == DoorsNumber && CarAt(s, car) &&
      forall j :: 0 <= j < |s| ==>
        s[j].firstChoice == (j == first) && s[j].hostChoice == (j == host) && !s[j].definitiveChoice
  {
    InitialPlacesOneCar(car);
    var s0 := Initial(car);
    FirstChoiceMarksOneDoor(s0, first);
    var s1 := SetFirstPlayerChoice(s0, first).value;
    HostNeverOpensFirstChoice(s1, host);
  }

  /** Staying ends on the first pick and wins exactly when the first pick
      holds the car. */
  lemma StayWinsIffFirstIsCar(car: int, first: int, host: int)
    requires LegalReveal(car, first, host)
    ensures Revealed(car, first, host).Success?
    ensures var s := Revealed(car, first, host).value;
      FinalDoor(s, Stay) == first &&
      ExecuteAction(s, Stay).Success? &&
      (ExecuteAction(s, Stay).value.win <==> first == car)
  {
    RevealedShape(car, first, host);
    var s := Revealed(car, first, host).value;
    ExecuteMarksOnlyFinalDoor(s, Stay);
    assert Eligible(Stay)(s[first]);
  }

  /** Changing ends on the one door that is neither the first pick nor the
      opened door, and wins exactly when the first pick holds a goat. */
  lemma ChangeWinsIffFirstIsGoat(car: int, first: int, host: int)
    requires LegalReveal(car, first, host)
    ensures Revealed(car, first, host).Success?
    ensures var s := Revealed(car, first, host).value;
      var k := FinalDoor(s, Change);
      0 <= k < DoorsNumber && k != first && k != host &&
      ExecuteAction(s, Change).Success? &&
      (ExecuteAction(s, Change).value.win <==> first != car)
  {
    RevealedShape(car, first, host);
    var s := Revealed(car, first, host).value;
    ExecuteMarksOnlyFinalDoor(s, Change);
    assert Eligible(Change)(s[3 - first - host]);
  }

  /** For every placement of the car, every first pick and every legal
      reveal, staying and changing have opposite outcomes. */
  lemma StayAndChangeComplementary(car: int, first: int, host: int)
    requires LegalReveal(car, first, host)
    ensures Revealed(car, first, host).Success?
    ensures var s := Revealed(car, first, host).value;
      ExecuteAction(s, Stay).Success? && ExecuteAction(s, Change).Success? &&
      ExecuteAction(s, Stay).value.win != ExecuteAction(s, Change).value.win
  {
    StayWinsIffFirstIsCar(car, first, host);
    ChangeWinsIffFirstIsGoat(car, first, host);
  }
}
