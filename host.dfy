/** The host's policy: open a goat door the player did not pick, drawing at
    random only when there is more than one. The random draw is a parameter. */
module GameHost {
  import opened MontyTypes
  import opened GameRules

  /** A door the host may open: not the first pick, and a goat behind it. */
  predicate Openable(d: DoorState)
  {
    !d.firstChoice && d.price == Goat
  }

  /** The indices, from `lo` on and in increasing order, of the doors the
      host may open (the `Where` filter of the list, mapped back to indices). */
  function RemainingFrom(s: seq<DoorState>, lo: nat): (r: seq<int>)
    requires lo <= |s|
    decreases |s| - lo
    ensures |r| <= |s| - lo
  {
    if lo == |s| then []
    else if Openable(s[lo]) then [lo] + RemainingFrom(s, lo + 1)
    else RemainingFrom(s, lo + 1)
  }

  /** The filter keeps exactly the openable doors from `lo` on, in
      increasing order. */
  lemma {:induction false} RemainingFromFilters(s: seq<DoorState>, lo: nat)
    requires lo <= |s|
    decreases |s| - lo
    ensures forall k :: 0 <= k < |RemainingFrom(s, lo)| ==>
      lo <= RemainingFrom(s, lo)[k] < |s| && Openable(s[RemainingFrom(s, lo)[k]])
    ensures forall i :: lo <= i < |s| && Openable(s[i]) ==> i in RemainingFrom(s, lo)
    ensures forall k, m :: 0 <= k < m < |RemainingFrom(s, lo)| ==> RemainingFrom(s, lo)[k] < RemainingFrom(s, lo)[m]
  {
    if lo < |s| {
      RemainingFromFilters(s, lo + 1);
      var rest := RemainingFrom(s, lo + 1);
      if Openable(s[lo]) {
        var r := [lo] + rest;
        assert RemainingFrom(s, lo) == r;
        assert forall k :: 1 <= k < |r| ==> r[k] == rest[k - 1];
      } else {
        assert RemainingFrom(s, lo) == rest;
      }
    }
  }

  /** The indices, in order, of all the doors the host may open. */
  function Remaining(s: seq<DoorState>): (r: seq<int>)
    ensures forall k :: 0 <= k < |r| ==> 0 <= r[k] < |s| && Openable(s[r[k]])
    ensures forall i :: 0 <= i < |s| && Openable(s[i]) ==> i in r
    ensures forall k, m :: 0 <= k < m < |r| ==> r[k] < r[m]
  {
    RemainingFromFilters(s, 0);
    RemainingFrom(s, 0)
  }

  /** The door the host opens. `draw` stands for `Random.Next(0, n)` with `n`
      the number of openable doors; it is consulted only when `n` is not 1.
      With no openable door at all, `Random.Next(0, 0)` yields 0 and asking
      an empty list for its element 0 raises `ArgumentOutOfRange`. */
  function OpenGoatDoor(s: seq<DoorState>, draw: int): (r: Result<int>)
    requires |Remaining(s)| >= 2 ==> 0 <= draw < |Remaining(s)|
    ensures r.Success? ==> 0 <= r.value < |s| && !s[r.value].firstChoice && s[r.value].price == Goat
    ensures r.Failure? <==> forall i :: 0 <= i < |s| ==> !Openable(s[i])
    ensures r.Failure? ==> r.error == ArgumentOutOfRange
  {
    var remaining := Remaining(s);
    if |remaining| == 1 then Success(remaining[0])
    else if |remaining| == 0 then Failure(ArgumentOutOfRange)
    else Success(remaining[draw])
  }

  /** The doors after the player's first pick `first`, with the car behind `car`. */
  function AfterFirstChoice(car: int, first: int): seq<DoorState>
  {
    SetFirstPlayerChoice(Initial(car), first).GetOr(Initial(car))
  }

  /** For three doors, the openable ones listed door by door. */
  lemma RemainingOfThree(s: seq<DoorState>)
    requires |s| == DoorsNumber
    ensures Remaining(s) ==
      (if Openable(s[0]) then [0] else []) +
      (if Openable(s[1]) then [1] else []) +
      (if Openable(s[2]) then [2] else [])
  {
    assert RemainingFrom(s, 3) == [];
    assert RemainingFrom(s, 2) == (if Openable(s[2]) then [2] else []);
    assert RemainingFrom(s, 1) == (if Openable(s[1]) then [1] else []) + RemainingFrom(s, 2);
  }

  /** In a game with one car and one first pick, the openable doors are the
      goat doors other than the first pick: two when the first pick is the
      car, one when it is a goat. */
  lemma RemainingAfterFirstChoice(car: int, first: int)
    requires 0 <= car < DoorsNumber && 0 <= first < DoorsNumber
    ensures var rem := Remaining(AfterFirstChoice(car, first));
      (first == car ==> |rem| == 2) && (first != car ==> rem == [3 - car - first])
  {
    var s := AfterFirstChoice(car, first);
    InitialPlacesOneCar(car);
    FirstChoiceMarksOneDoor(Initial(car), first);
    assert forall i :: 0 <= i < |s| ==> (Openable(s[i]) <==> i != first && i != car);
    RemainingOfThree(s);
  }

  /** When the player first picked a goat, the host's choice is forced: it
      opens the only other goat door, whatever the draw. */
  lemma HostForcedWhenFirstIsGoat(car: int, first: int, draw: int)
    requires 0 <= car < DoorsNumber && 0 <= first < DoorsNumber && first != car
    ensures Remaining(AfterFirstChoice(car, first)) == [3 - car - first]
    ensures OpenGoatDoor(AfterFirstChoice(car, first), draw) == Success(3 - car - first)
    ensures LegalReveal(car, first, 3 - car - first)
  {
    RemainingAfterFirstChoice(car, first);
  }

  /** When the player first picked the car, there are two goat doors to
      choose from and the draw decides: the host opens the openable door at
      position `draw`, which is a legal reveal. */
  lemma HostDrawsWhenFirstIsCar(car: int, draw: int)
    requires 0 <= car < DoorsNumber && 0 <= draw < 2
    ensures var s := AfterFirstChoice(car, car);
      |Remaining(s)| == 2 &&
      OpenGoatDoor(s, draw) == Success(Remaining(s)[draw]) &&
      LegalReveal(car, car, Remaining(s)[draw])
  {
    RemainingAfterFirstChoice(car, car);
    InitialPlacesOneCar(car);
    FirstChoiceMarksOneDoor(Initial(car), car);
  }

  /** Whatever the placement, the first pick and the draw, the host opens a
      door that is legal to reveal: not the first pick, not the car. */
  lemma HostRevealIsLegal(car: int, first: int, draw: int)
    requires 0 <= car < DoorsNumber && 0 <= first < DoorsNumber && 0 <= draw < 2
    ensures OpenGoatDoor(AfterFirstChoice(car, first), draw).Success?
    ensures LegalReveal(car, first, OpenGoatDoor(AfterFirstChoice(car, first), draw).value)
  {
    if first == car {
      HostDrawsWhenFirstIsCar(car, draw);
    } else {
      HostForcedWhenFirstIsGoat(car, first, draw);
    }
  }
}
