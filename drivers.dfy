/**
 * Driver behaviours: each yields a constant command (a fraction of the segment's
 * maximum speed, and acceleration and braking factors) whatever the train's delay.
 */
module Drivers {

  datatype Behavior = Eco | Intermediate | Crazy | VeryCrazy | Soigneux

  datatype DriverCommand = DriverCommand(desiredSpeed: real, desiredAccel: real, desiredDecel: real)

  /** The command a behaviour gives; the delay argument is accepted and ignored. */
  function GetCommand(b: Behavior, delay: int): (c: DriverCommand)
    ensures 0.0 < c.desiredSpeed <= 1.2 && 0.0 < c.desiredAccel <= 1.0 && 0.0 < c.desiredDecel <= 1.0
    ensures c.desiredAccel == c.desiredDecel
    ensures c.desiredSpeed > 1.0 <==> b == VeryCrazy
    ensures c.desiredSpeed < 1.0 <==> b in {Eco, Intermediate}
    ensures c.desiredAccel == 0.6 <==> b in {Eco, Soigneux}
  {
    match b
    case Eco => DriverCommand(0.7, 0.6, 0.6)
    case Intermediate => DriverCommand(0.7, 0.8, 0.8)
    case Crazy => DriverCommand(1.0, 0.8, 0.8)
    case VeryCrazy => DriverCommand(1.2, 1.0, 1.0)
    case Soigneux => DriverCommand(1.0, 0.6, 0.6)
  }

  /** A driver's command does not react to the delay. */
  lemma CommandIgnoresDelay(b: Behavior, d1: int, d2: int)
    ensures GetCommand(b, d1) == GetCommand(b, d2)
  {
  }

  /** The configuration name of a behaviour, as the start dialog sends it. */
  function BehaviorName(b: Behavior): string
  {
    match b
    case Eco => "eco"
    case Intermediate => "intermediate"
    case Crazy => "crazy"
    case VeryCrazy => "very_crazy"
    case Soigneux => "soigneux"
  }

  /** Picks a behaviour from its name; an unknown name selects the eco driver. */
  function NewDriverBehavior(name: string): (b: Behavior)
    ensures name == "intermediate" <==> b == Intermediate
    ensures name == "crazy" <==> b == Crazy
    ensures name == "very_crazy" <==> b == VeryCrazy
    ensures name == "soigneux" <==> b == Soigneux
    ensures name !in {"intermediate", "crazy", "very_crazy", "soigneux"} <==> b == Eco
  {
    if name == "intermediate" then Intermediate
    else if name == "crazy" then Crazy
    else if name == "very_crazy" then VeryCrazy
    else if name == "soigneux" then Soigneux
    else Eco
  }

  lemma BehaviorNameRoundTrip(b: Behavior)
    ensures NewDriverBehavior(BehaviorName(b)) == b
  {
  }
}
