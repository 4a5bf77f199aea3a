/** The clamping of the sensing window to the 200 x 200 world
    (`check_coords` of the exploring robot). */
module Windowing {
  import opened Geometry

  /** The last row and column index of the world; the source hard-codes it. */
  const WorldLast: int := 199

  function Clamp(x: int, lo: int, hi: int): int
    requires lo <= hi
  {
    if x < lo then lo else if x > hi then hi else x
  }

  /** One coordinate of `check_coords`: first lift it to `half` when the window
      would run off the low edge, then (on the updated value) lower it to
      `WorldLast - half` when the window would run off the high edge. */
  function ClampAxis(x: nat, half: nat): (y: int)
    requires half <= WorldLast - half
    ensures y == Clamp(x, half, WorldLast - half)
  {
    var lifted := if x - half < 0 then x + Abs(x - half) else x;
    if lifted + half > WorldLast then lifted - ((lifted + half) - WorldLast) else lifted
  }

  /** The centre of a square window of side `l` around the robot at `robot`,
      moved the least amount that keeps the whole window inside the world. */
  function CheckCoords(robot: (nat, nat), l: nat): (c: (int, int))
    requires l / 2 <= WorldLast - l / 2
    ensures l / 2 <= c.0 <= WorldLast - l / 2 && l / 2 <= c.1 <= WorldLast - l / 2
    ensures c.0 - l / 2 >= 0 && c.0 + l / 2 <= WorldLast
    ensures c.1 - l / 2 >= 0 && c.1 + l / 2 <= WorldLast
    ensures l / 2 <= robot.0 <= WorldLast - l / 2 ==> c.0 == robot.0
    ensures l / 2 <= robot.1 <= WorldLast - l / 2 ==> c.1 == robot.1
    ensures robot.0 <= WorldLast ==> c.0 - l / 2 <= robot.0 <= c.0 + l / 2
    ensures robot.1 <= WorldLast ==> c.1 - l / 2 <= robot.1 <= c.1 + l / 2
  {
    (ClampAxis(robot.0, l / 2), ClampAxis(robot.1, l / 2))
  }
}
