/** The game objects: a `Door` whose role flags are updated in place through
    guarded setters, and a `Game` that owns the list of its doors. Each
    operation is proved to do what the matching function of `GameRules`
    says about the list of door states. */
module Games {
  import opened MontyTypes
  import opened GameRules

  class Door {
    const price: Prize
    var firstChoice: bool
    var hostChoice: bool
    var definitiveChoice: bool

    /** The observable state of this door. */
    function State(): DoorState
      reads this
    {
      DoorState(price, firstChoice, hostChoice, definitiveChoice)
    }

    constructor (p: Prize)
      ensures State() == DoorState(p, false, false, false)
    {
      price := p;
      firstChoice, hostChoice, definitiveChoice := false, false, false;
    }

    /** The `HostChoice` setter: raises `InvalidOperation`, changing nothing,
        when asked to mark the player's first pick. */
    method SetHostChoice(value: bool) returns (outcome: Outcome)
      modifies this
      ensures outcome == SetHostFlag(old(State()), value).ToOutcome()
      ensures State() == SetHostFlag(old(State()), value).GetOr(old(State()))
    {
      if value && firstChoice {
        return Fail(InvalidOperation);
      }
      hostChoice := value;
      outcome := Pass;
    }

    /** The `DefinitiveChoice` setter: raises `InvalidOperation`, changing
        nothing, when asked to mark the door the host opened. */
    method SetDefinitiveChoice(value: bool) returns (outcome: Outcome)
      modifies this
      ensures outcome == SetDefinitiveFlag(old(State()), value).ToOutcome()
      ensures State() == SetDefinitiveFlag(old(State()), value).GetOr(old(State()))
    {
      if value && hostChoice {
        return Fail(InvalidOperation);
      }
      definitiveChoice := value;
      outcome := Pass;
    }
  }

  class Game {
    /** The doors, in order; the list is filled once, by the constructor. */
    const doors: seq<Door>

    /** Three doors, all distinct objects. */
    ghost predicate Valid()
    {
      |doors| == DoorsNumber &&
      forall i, j :: 0 <= i < j < |doors| ==> doors[i] != doors[j]
    }

    /** The states of the doors, in order. */
    function Snapshot(): (s: seq<DoorState>)
      reads doors
      ensures |s| == |doors|
    {
      seq(|doors|, i requires 0 <= i < |doors| reads doors => doors[i].State())
    }

    /** Builds the three doors, the car behind door `indexOfCar` (the draw of
        `Random.Next(0, 3)`) and goats behind the others. */
    constructor (indexOfCar: int)
      requires 0 <= indexOfCar < DoorsNumber
      ensures Valid()
      ensures forall i :: 0 <= i < |doors| ==> fresh(doors[i])
      ensures Snapshot() == Initial(indexOfCar)
    {
      var ds: seq<Door> := [];
      for i := 0 to DoorsNumber
        invariant |ds| == i
        invariant forall j :: 0 <= j < i ==> fresh(ds[j])
        invariant forall j, k :: 0 <= j < k < i ==> ds[j] != ds[k]
        invariant forall j :: 0 <= j < i ==> ds[j].State() == Initial(indexOfCar)[j]
      {
        var p := if i == indexOfCar then Car else Goat;
        var d := new Door(p);
        ds := ds + [d];
      }
      doors := ds;
      new;
      assert Snapshot() == Initial(indexOfCar);
    }

    method SetFirstPlayerChoice(chosenFirstDoor: int) returns (outcome: Outcome)
      requires Valid()
      modifies doors
      ensures outcome == GameRules.SetFirstPlayerChoice(old(Snapshot()), chosenFirstDoor).ToOutcome()
      ensures Snapshot() == GameRules.SetFirstPlayerChoice(old(Snapshot()), chosenFirstDoor).GetOr(old(Snapshot()))
    {
      if !(0 <= chosenFirstDoor < |doors|) {
        return Fail(ArgumentOutOfRange);
      }
      doors[chosenFirstDoor].firstChoice := true;
      outcome := Pass;
      assert Snapshot() == old(Snapshot())[chosenFirstDoor := old(Snapshot())[chosenFirstDoor].(firstChoice := true)];
    }

    method SetHostChoice(chosenHostDoor: int) returns (outcome: Outcome)
      requires Valid()
      modifies doors
      ensures outcome == GameRules.SetHostChoice(old(Snapshot()), chosenHostDoor).ToOutcome()
      ensures Snapshot() == GameRules.SetHostChoice(old(Snapshot()), chosenHostDoor).GetOr(old(Snapshot()))
    {
      if !(0 <= chosenHostDoor < |doors|) {
        return Fail(ArgumentOutOfRange);
      }
      outcome := doors[chosenHostDoor].SetHostChoice(true);
      assert Snapshot() == old(Snapshot())[chosenHostDoor := doors[chosenHostDoor].State()];
    }

    /** Resolves the action into the final door, marks it, and reports
        whether the final door holds the car. */
    method ExecuteAction(chosenAction: PlayerAction) returns (result: Result<bool>)
      requires Valid()
      modifies doors
      ensures var r := GameRules.ExecuteAction(old(Snapshot()), chosenAction);
        result == (if r.Success? then Success(r.value.win) else Failure(r.error))
      ensures var r := GameRules.ExecuteAction(old(Snapshot()), chosenAction);
        Snapshot() == if r.Success? then r.value.doors else old(Snapshot())
    {
      var k := FindIndex(Snapshot(), Eligible(chosenAction));
      if k < 0 {
        return Failure(ArgumentOutOfRange);
      }
      var definitiveDoor := doors[k];
      var outcome := definitiveDoor.SetDefinitiveChoice(true);
      if outcome.Fail? {
        return Failure(outcome.error);
      }
      assert Snapshot() == old(Snapshot())[k := definitiveDoor.State()];
      result := Success(definitiveDoor.price == Car);
    }
  }
}
