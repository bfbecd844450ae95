/** The player's policy. Each random draw is a parameter in the range the
    random source guarantees. */
module Player {
  import opened MontyTypes

  /** A forced action is returned unchanged; otherwise the draw of
      `Random.Next(0, 2)` decides, 0 meaning stay and 1 meaning change. */
  function ChooseAction(forceAction: Option<PlayerAction>, draw: int): (a: PlayerAction)
    requires forceAction.None? ==> 0 <= draw < 2
    ensures forceAction.Some? ==> a == forceAction.value
    ensures forceAction.None? ==> (a == Stay <==> draw == 0) && (a == Change <==> draw == 1)
  {
    if forceAction.Some? then forceAction.value
    else if draw == 0 then Stay else Change
  }

  /** The first pick: the draw of `Random.Next(0, doorCount)`, a door index. */
  function FirstChoice(doorCount: nat, draw: int): (index: nat)
    requires 0 <= draw < doorCount
    ensures index < doorCount
  {
    draw
  }
}
