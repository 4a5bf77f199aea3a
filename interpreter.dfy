/** The per-tick mode choice of the exploring robot (`Variables::interpreter`). */
module Interpreter {

  /** The high-level intents; GetResources and AsfaltInator exist but are never chosen. */
  datatype ComplexAction = Discover | Explore | GetResources | AsfaltInator | Wait

  /** The energy level below which the robot waits for a recharge. */
  const WaitThreshold: nat := 200

  /** The actions for one tick. The loop runs while its flag is set and every
      branch clears the flag, so it makes exactly one round; on that round
      `cycles == 0` and the Discover test reduces to `ticks == 0`. */
  method Interpret(ticks: int, energy: nat) returns (actions: seq<ComplexAction>)
    ensures |actions| == 1
    ensures actions[0] == Discover <==> ticks == 0
    ensures actions[0] == Wait <==> ticks != 0 && energy < WaitThreshold
    ensures actions[0] == Explore <==> ticks != 0 && energy >= WaitThreshold
  {
    actions := [];
    var flag := true;
    var cycles := 0;
    while flag
      invariant flag <==> cycles == 0
      invariant |actions| == cycles <= 1
      invariant cycles == 1 ==> (actions[0] == Discover <==> ticks == 0)
      invariant cycles == 1 ==> (actions[0] == Wait <==> ticks != 0 && energy < WaitThreshold)
      invariant cycles == 1 ==> (actions[0] == Explore <==> ticks != 0 && energy >= WaitThreshold)
      decreases flag
    {
      if ticks == 0 && cycles == 0 {
        actions := actions + [Discover];
        flag := false;
      } else if energy < WaitThreshold {
        actions := actions + [Wait];
        flag := false;
      } else {
        actions := actions + [Explore];
        flag := false;
      }
      cycles := cycles + 1;
    }
  }
}
