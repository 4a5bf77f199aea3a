/** The exploring robot: reconciliation of the sensed window with the robot's
    map, the choice of a plan (`get_tile_to_move_towards`), the Explore
    executor and the per-tick dispatch of `process_tick`. */
module Explorer {
  import opened Geometry
  import opened Windowing
  import opened Interpreter
  import opened PathSearch
  import opened Wrappers

  /** The side of the sensed window used by Explore. */
  const WindowSide: nat := 21
  /** The offset from the window centre to its first row and column; the source
      hard-codes it as 10 rather than computing `WindowSide / 2`. */
  const CentreOffset: int := 10
  /** The side of the square sensed by the Discover intent. */
  const DiscoverSide: nat := 41

  /** The calls the robot makes into the world, in the order it makes them. */
  datatype Call =
    | Go(dir: Direction)
    | RobotView
    | Destroy(toward: Direction)
    | DiscoverTiles(at: Coord)
    | SenseSquare(side: nat, centre: Coord)
    | SenseCentredSquare(side: nat)
    | LuckySpin

  /** The robot's own map of confirmed tiles: a coordinate is present when the
      robot's map has `Some` there. */
  type KnownMap = map<Coord, TileType>

  predicate InWorld(p: Coord) {
    0 <= p.0 <= WorldLast && 0 <= p.1 <= WorldLast
  }

  // -----------------------------------------------------------------------
  // Reconciliation

  /** A window cell after reconciliation: an unconfirmed cell whose coordinate
      the robot's map knows takes that tile type and becomes confirmed. */
  function Reconciled(c: Cell, known: KnownMap): (r: Cell)
    ensures r.global == c.global
    ensures r.discovered <==> c.discovered || c.global in known
    ensures !c.discovered && c.global in known ==> r.tileType == known[c.global]
    ensures c.discovered || c.global !in known ==> r == c
  {
    if !c.discovered && c.global in known then
      c.(tileType := known[c.global], discovered := true)
    else c
  }

  lemma ReconciledIdempotent(c: Cell, known: KnownMap)
    ensures Reconciled(Reconciled(c, known), known) == Reconciled(c, known)
  {
  }

  /** Upgrades, in place, every unconfirmed cell of the window that the robot's map knows. */
  method Reconcile(window: array2<Cell>, known: KnownMap)
    modifies window
    ensures forall i, j :: 0 <= i < window.Length0 && 0 <= j < window.Length1 ==>
              window[i, j] == Reconciled(old(window[i, j]), known)
  {
    for r := 0 to window.Length0
      invariant forall i, j :: 0 <= i < r && 0 <= j < window.Length1 ==>
                  window[i, j] == Reconciled(old(window[i, j]), known)
      invariant forall i, j :: r <= i < window.Length0 && 0 <= j < window.Length1 ==>
                  window[i, j] == old(window[i, j])
    {
      for c := 0 to window.Length1
        invariant forall i, j :: 0 <= i < r && 0 <= j < window.Length1 ==>
                    window[i, j] == Reconciled(old(window[i, j]), known)
        invariant forall j :: 0 <= j < c ==> window[r, j] == Reconciled(old(window[r, j]), known)
        invariant forall i, j :: r <= i < window.Length0 && 0 <= j < window.Length1 && (i > r || j >= c) ==>
                    window[i, j] == old(window[i, j])
      {
        var cell := window[r, c];
        if !cell.discovered && cell.global in known {
          window[r, c] := cell.(tileType := known[cell.global], discovered := true);
        }
      }
    }
  }

  // -----------------------------------------------------------------------
  // The Explore executor

  /** The number of moves the world accepts before the first refusal among the
      first `n` steps of a plan (`n` when it accepts them all). */
  function FirstFailure(moveOk: nat -> bool, n: nat): (f: nat)
    ensures f <= n
    ensures forall k :: 0 <= k < f ==> moveOk(k)
    ensures f < n ==> !moveOk(f)
    decreases n
  {
    if n == 0 then 0
    else
      var f := FirstFailure(moveOk, n - 1);
      if f < n - 1 then f else if moveOk(n - 1) then n else n - 1
  }

  /** The number of `go` calls the executor issues: up to and including the first refused one. */
  function Attempted(moveOk: nat -> bool, n: nat): nat {
    var f := FirstFailure(moveOk, n);
    if f < n then f + 1 else n
  }

  /** The calls of one step taken while not blocked: the move, a look around,
      and an attempt to destroy in each of the four directions. */
  function StepCalls(d: Direction): (c: seq<Call>)
    ensures |c| == 6 && c[0] == Go(d)
    ensures forall i :: 1 <= i < |c| ==> !c[i].Go?
  {
    [Go(d), RobotView, Destroy(Up), Destroy(Right), Destroy(Down), Destroy(Left)]
  }

  /** The calls of the steps `ds`, taken one after the other. */
  function MoveCalls(ds: seq<Direction>): (c: seq<Call>)
    ensures |c| == 6 * |ds|
    decreases |ds|
  {
    if ds == [] then [] else MoveCalls(ds[..|ds| - 1]) + StepCalls(ds[|ds| - 1])
  }

  /** One discovery request per step `lo <= k < hi`, on the coordinate the
      plan traces after step `k`. */
  function DiscoverRange(start: Coord, plan: seq<Direction>, lo: nat, hi: nat): (c: seq<Call>)
    requires lo <= hi <= |plan|
    ensures |c| == hi - lo
    decreases hi
  {
    if lo == hi then [] else DiscoverRange(start, plan, lo, hi - 1) + [DiscoverTiles(Replay(start, plan[..hi]))]
  }

  /** Walks `plan` from `start`. While no move has been refused it calls `go`,
      looks around and tries to destroy in every direction, also in the step
      whose `go` is refused; from then on it only asks to discover the traced
      coordinate. The traced coordinate advances on every step. `moveOk(k)`
      is the world's answer to the `go` of step `k`. */
  method ExecutePlan(start: Coord, plan: seq<Direction>, moveOk: nat -> bool)
    returns (calls: seq<Call>, blocked: bool, coords: Coord, position: Coord)
    ensures coords == Replay(start, plan)
    ensures blocked <==> exists k :: 0 <= k < |plan| && !moveOk(k)
    ensures position == Replay(start, plan[..FirstFailure(moveOk, |plan|)])
    ensures calls == MoveCalls(plan[..Attempted(moveOk, |plan|)])
                     + DiscoverRange(start, plan, Attempted(moveOk, |plan|), |plan|)
  {
    ghost var f := FirstFailure(moveOk, |plan|);
    ghost var a := Attempted(moveOk, |plan|);
    calls, blocked, coords, position := [], false, start, start;
    for i := 0 to |plan|
      invariant coords == Replay(start, plan[..i])
      invariant blocked <==> f < i
      invariant position == Replay(start, plan[..if i < f then i else f])
      invariant i <= a ==> calls == MoveCalls(plan[..i])
      invariant i > a ==> calls == MoveCalls(plan[..a]) + DiscoverRange(start, plan, a, i)
    {
      var dir := plan[i];
      assert plan[..i + 1] == plan[..i] + [dir];
      ReplayPush(start, plan[..i], dir);
      coords := Step(coords, dir);
      if blocked {
        calls := calls + [DiscoverTiles(coords)];
      } else {
        if moveOk(i) {
          position := Step(position, dir);
        } else {
          blocked := true;
        }
        assert (plan[..i] + [dir])[..i] == plan[..i];
        calls := calls + StepCalls(dir);
      }
    }
    assert plan[..|plan|] == plan;
  }

  /** The directions of the `go` calls in a call log. */
  function GoDirections(calls: seq<Call>): seq<Direction>
    decreases |calls|
  {
    if calls == [] then []
    else (if calls[0].Go? then [calls[0].dir] else []) + GoDirections(calls[1..])
  }

  lemma {:induction false} GoDirectionsAppend(a: seq<Call>, b: seq<Call>)
    ensures GoDirections(a + b) == GoDirections(a) + GoDirections(b)
    decreases |a|
  {
    if a == [] {
      assert a + b == b;
    } else {
      assert (a + b)[0] == a[0] && (a + b)[1..] == a[1..] + b;
      GoDirectionsAppend(a[1..], b);
    }
  }

  lemma {:induction false} GoDirectionsNone(calls: seq<Call>)
    requires forall i :: 0 <= i < |calls| ==> !calls[i].Go?
    ensures GoDirections(calls) == []
    decreases |calls|
  {
    if calls != [] {
      GoDirectionsNone(calls[1..]);
    }
  }

  lemma {:induction false} GoDirectionsOfMoves(ds: seq<Direction>)
    ensures GoDirections(MoveCalls(ds)) == ds
    decreases |ds|
  {
    if ds != [] {
      var d := ds[|ds| - 1];
      GoDirectionsOfMoves(ds[..|ds| - 1]);
      GoDirectionsAppend(MoveCalls(ds[..|ds| - 1]), StepCalls(d));
      GoDirectionsNone(StepCalls(d)[1..]);
      assert ds[..|ds| - 1] + [d] == ds;
    }
  }

  lemma {:induction false} NoGoInDiscoveries(start: Coord, plan: seq<Direction>, lo: nat, hi: nat)
    requires lo <= hi <= |plan|
    ensures GoDirections(DiscoverRange(start, plan, lo, hi)) == []
    decreases hi
  {
    if lo < hi {
      NoGoInDiscoveries(start, plan, lo, hi - 1);
      GoDirectionsAppend(DiscoverRange(start, plan, lo, hi - 1), [DiscoverTiles(Replay(start, plan[..hi]))]);
    }
  }

  /** The executor moves along the plan up to and including the first refused
      move, and never calls `go` after it. */
  lemma ExploreGoes(start: Coord, plan: seq<Direction>, moveOk: nat -> bool)
    ensures var a := Attempted(moveOk, |plan|);
            GoDirections(MoveCalls(plan[..a]) + DiscoverRange(start, plan, a, |plan|)) == plan[..a]
  {
    var a := Attempted(moveOk, |plan|);
    GoDirectionsAppend(MoveCalls(plan[..a]), DiscoverRange(start, plan, a, |plan|));
    GoDirectionsOfMoves(plan[..a]);
    NoGoInDiscoveries(start, plan, a, |plan|);
  }

  /** After the first refused move there is one discovery request per remaining
      step, on the coordinate the plan traces after that step. */
  lemma {:induction false} DiscoverRangeAt(start: Coord, plan: seq<Direction>, lo: nat, hi: nat, k: nat)
    requires lo <= k < hi <= |plan|
    ensures DiscoverRange(start, plan, lo, hi)[k - lo] == DiscoverTiles(Replay(start, plan[..k + 1]))
    decreases hi
  {
    if k < hi - 1 {
      DiscoverRangeAt(start, plan, lo, hi - 1, k);
    }
  }

  // -----------------------------------------------------------------------
  // The robot

  /** The window cells lie, row by row, around `centre`. */
  predicate SensedAround(sensed: array2<Cell>, centre: Coord)
    reads sensed
  {
    && sensed.Length0 == WindowSide && sensed.Length1 == WindowSide
    && forall i, j :: 0 <= i < WindowSide && 0 <= j < WindowSide ==>
         sensed[i, j].global == (centre.0 - CentreOffset + i, centre.1 - CentreOffset + j)
  }

  /** A plan found from the robot's window-local cell reaches, in world
      coordinates, the global coordinate of the window cell it ends on. */
  lemma PlanLands(position: Coord, centre: Coord, rel: Coord, plan: seq<Direction>, global: Coord)
    requires rel.0 == position.0 - centre.0 + CentreOffset && rel.1 == position.1 - centre.1 + CentreOffset
    requires global.0 == centre.0 - CentreOffset + Replay(rel, plan).0
    requires global.1 == centre.1 - CentreOffset + Replay(rel, plan).1
    ensures Replay(position, plan) == global
  {
    ReplayShift(rel, position, plan);
  }

  /** The reconciled window as the search reads it: 21 x 21 cells lying, row
      by row, around `centre`. */
  predicate WindowAround(window: seq<seq<Cell>>, centre: Coord) {
    && |window| == WindowSide && IsSquare(window)
    && forall i, j :: 0 <= i < WindowSide && 0 <= j < WindowSide ==>
         window[i][j].global == (centre.0 - CentreOffset + i, centre.1 - CentreOffset + j)
  }

  lemma SnapshotAround(sensed: array2<Cell>, centre: Coord)
    requires SensedAround(sensed, centre)
    ensures WindowAround(Snapshot(sensed), centre)
  {
  }

  /** A plan found in a window that lies inside the world, starting from the
      robot's own cell, ends in world coordinates on the global coordinate of
      the cell it reaches in the window, and every prefix of it (where the
      robot stands, and where the executor's traced coordinate stands, after
      each step) stays inside the world. */
  lemma PlanInWorld(s: Searcher, position: Coord, centre: Coord, plan: seq<Direction>, best: Coord)
    requires s.Valid() && WindowAround(s.window, centre)
    requires s.origin == (position.0 - centre.0 + CentreOffset, position.1 - centre.1 + CentreOffset)
    requires CentreOffset <= centre.0 <= WorldLast - CentreOffset
    requires CentreOffset <= centre.1 <= WorldLast - CentreOffset
    requires InWorld(position)
    requires plan != [] ==> s.Route(plan) && Replay(s.origin, plan) == best
    ensures plan != [] ==> s.InWindow(best) && Replay(position, plan) == s.window[best.0][best.1].global
    ensures forall k :: 0 <= k <= |plan| ==> InWorld(Replay(position, plan[..k]))
  {
    forall k | 0 <= k <= |plan|
      ensures InWorld(Replay(position, plan[..k]))
    {
      if plan == [] {
        assert plan[..k] == [];
      } else {
        s.RoutePrefix(plan, k);
        var cell := Replay(s.origin, plan[..k]);
        PlanLands(position, centre, s.origin, plan[..k], (centre.0 - CentreOffset + cell.0, centre.1 - CentreOffset + cell.1));
      }
    }
    if plan != [] {
      s.RoutePrefix(plan, |plan|);
      assert plan[..|plan|] == plan;
      PlanLands(position, centre, s.origin, plan, s.window[best.0][best.1].global);
    }
  }

  /** The robot's own cell in the window sensed around the clamped centre. */
  function WindowOrigin(position: Coord): (o: Coord)
    requires InWorld(position)
    ensures 0 <= o.0 < WindowSide && 0 <= o.1 < WindowSide
  {
    var centre := CheckCoords(position, WindowSide);
    (position.0 - centre.0 + CentreOffset, position.1 - centre.1 + CentreOffset)
  }

  /** `s` is the finished search over `window` from `origin` with the given
      oracles, and `plan` is the path extracted from it, leading to `best`. */
  ghost predicate SearchChose(s: Searcher, table: seq<seq<Entry>>, window: seq<seq<Cell>>, origin: Coord,
                              walkable: TileType -> bool, tileCost: TileType -> nat,
                              plan: seq<Direction>, best: Coord)
  {
    && s.Valid() && s.window == window && s.origin == origin
    && s.walkable == walkable && s.tileCost == tileCost
    && Searched(s, table) && PlanIsBest(s, table, plan, best)
  }

  /** Reconciles the sensed window in place and takes the snapshot the
      search reads; reconciliation keeps every cell's world coordinate. */
  method ReconcileAround(sensed: array2<Cell>, known: KnownMap, centre: Coord) returns (window: seq<seq<Cell>>)
    requires SensedAround(sensed, centre)
    modifies sensed
    ensures forall i, j :: 0 <= i < WindowSide && 0 <= j < WindowSide ==>
              sensed[i, j] == Reconciled(old(sensed[i, j]), known)
    ensures window == Snapshot(sensed) && WindowAround(window, centre)
  {
    Reconcile(sensed, known);
    window := Snapshot(sensed);
    assert SensedAround(sensed, centre) by {
      forall i, j | 0 <= i < WindowSide && 0 <= j < WindowSide
        ensures sensed[i, j].global == (centre.0 - CentreOffset + i, centre.1 - CentreOffset + j)
      {
        assert sensed[i, j] == Reconciled(old(sensed[i, j]), known);
      }
    }
    SnapshotAround(sensed, centre);
  }

  lemma LogAssoc(a: Call, b: Call, moves: seq<Call>, discoveries: seq<Call>)
    ensures [a] + ([b] + (moves + discoveries)) == [a, b] + moves + discoveries
  {
  }

  class MyRobot {
    var ticks: int
    var position: Coord

    constructor (spawn: Coord)
      ensures ticks == 0 && position == spawn
    {
      ticks := 0;
      position := spawn;
    }

    /** The centre of the window the robot senses: clamped so the whole
        window lies in the world, and within `CentreOffset` of the robot on
        each axis. */
    function Centre(): (c: Coord)
      reads this
      requires InWorld(position)
      ensures CentreOffset <= c.0 <= WorldLast - CentreOffset && CentreOffset <= c.1 <= WorldLast - CentreOffset
      ensures c.0 - CentreOffset <= position.0 <= c.0 + CentreOffset
      ensures c.1 - CentreOffset <= position.1 <= c.1 + CentreOffset
    {
      CheckCoords((position.0, position.1), WindowSide)
    }

    /** Chooses the plan for Explore: clamps the window centre, reconciles the
        sensed window with the robot's map, searches from the robot's own cell
        and returns the path of the first best-scoring cell. */
    method GetTileToMoveTowards(sensed: array2<Cell>, known: KnownMap,
                                walkable: TileType -> bool, tileCost: TileType -> nat)
      returns (plan: seq<Direction>, ghost s: Searcher, ghost table: seq<seq<Entry>>, ghost best: Coord)
      requires InWorld(position)
      requires SensedAround(sensed, Centre())
      modifies sensed
      ensures table == Snapshot(s.likeability)
      ensures forall i, j :: 0 <= i < WindowSide && 0 <= j < WindowSide ==>
                sensed[i, j] == Reconciled(old(sensed[i, j]), known)
      ensures SearchChose(s, table, Snapshot(sensed), WindowOrigin(position), walkable, tileCost, plan, best)
      ensures |plan| <= 10
      ensures !s.Walkable(s.origin) ==> plan == []
      ensures plan != [] ==> && s.InWindow(best) && s.Route(plan)
                             && Replay(s.origin, plan) == best
                             && s.ScoredCost(plan) < Budget
      ensures plan != [] ==> Replay(position, plan) == sensed[best.0, best.1].global
      ensures forall k :: 0 <= k <= |plan| ==> InWorld(Replay(position, plan[..k]))
    {
      var centre := Centre();
      var window := ReconcileAround(sensed, known, centre);
      var rel := WindowOrigin(position);
      assert rel == (position.0 - centre.0 + CentreOffset, position.1 - centre.1 + CentreOffset);
      plan, s, table, best := SearchWindow(window, walkable, tileCost, rel);
      assert SearchChose(s, table, window, rel, walkable, tileCost, plan, best);
      PlanInWorld(s, position, centre, plan, best);
    }

    /** Walks `plan` with the executor; the robot ends where its accepted
        moves took it. */
    method Walk(plan: seq<Direction>, moveOk: nat -> bool) returns (calls: seq<Call>)
      requires forall k :: 0 <= k <= |plan| ==> InWorld(Replay(position, plan[..k]))
      modifies this`position
      ensures InWorld(position)
      ensures position == Replay(old(position), plan[..FirstFailure(moveOk, |plan|)])
      ensures calls == MoveCalls(plan[..Attempted(moveOk, |plan|)])
                       + DiscoverRange(old(position), plan, Attempted(moveOk, |plan|), |plan|)
    {
      var blocked, coords, reached;
      calls, blocked, coords, reached := ExecutePlan(position, plan, moveOk);
      position := reached;
    }

    /** The Explore intent: sense the window around the clamped centre, choose
        a plan and walk it; the robot ends where its accepted moves took it. */
    method RunExplore(sensed: array2<Cell>, known: KnownMap,
                      walkable: TileType -> bool, tileCost: TileType -> nat, moveOk: nat -> bool)
      returns (calls: seq<Call>, ghost plan: seq<Direction>, ghost s: Searcher, ghost table: seq<seq<Entry>>,
               ghost best: Coord)
      requires InWorld(position)
      requires SensedAround(sensed, Centre())
      modifies this`position, sensed
      ensures forall i, j :: 0 <= i < WindowSide && 0 <= j < WindowSide ==>
                sensed[i, j] == Reconciled(old(sensed[i, j]), known)
      ensures SearchChose(s, table, Snapshot(sensed), WindowOrigin(old(position)), walkable, tileCost, plan, best)
      ensures InWorld(position)
      ensures |plan| <= 10
      ensures position == Replay(old(position), plan[..FirstFailure(moveOk, |plan|)])
      ensures calls == [SenseSquare(WindowSide, old(Centre()))]
                       + (MoveCalls(plan[..Attempted(moveOk, |plan|)])
                          + DiscoverRange(old(position), plan, Attempted(moveOk, |plan|), |plan|))
    {
      var centre := Centre();
      calls := [SenseSquare(WindowSide, centre)];
      var chosen;
      chosen, s, table, best := GetTileToMoveTowards(sensed, known, walkable, tileCost);
      var moves := Walk(chosen, moveOk);
      calls := calls + moves;
      plan := chosen;
    }

    /** One tick: look around, choose the intent and carry it out, then count
        the tick. Discover senses a 41 x 41 square around the robot; Wait
        spins for energy; Explore senses the 21 x 21 window, chooses a plan and
        walks it. `sensed` stands for the world's answer to the window
        request, `known` for the robot's map and `moveOk` for the world's
        answers to the moves; the returned log lists the world calls made. */
    method ProcessTick(energy: nat, sensed: array2<Cell>, known: KnownMap,
                       walkable: TileType -> bool, tileCost: TileType -> nat, moveOk: nat -> bool)
      returns (calls: seq<Call>, ghost plan: seq<Direction>, ghost s: Searcher?, ghost table: seq<seq<Entry>>,
               ghost best: Coord)
      requires InWorld(position)
      requires SensedAround(sensed, Centre())
      modifies this`ticks, this`position, sensed
      ensures ticks == old(ticks) + 1
      ensures InWorld(position)
      ensures old(ticks) == 0 ==>
                calls == [RobotView, SenseCentredSquare(DiscoverSide)] && position == old(position)
                && unchanged(sensed)
      ensures old(ticks) != 0 && energy < WaitThreshold ==>
                calls == [RobotView, LuckySpin] && position == old(position) && unchanged(sensed)
      ensures old(ticks) != 0 && energy >= WaitThreshold ==>
                && (forall i, j :: 0 <= i < WindowSide && 0 <= j < WindowSide ==>
                      sensed[i, j] == Reconciled(old(sensed[i, j]), known))
                && s != null
                && SearchChose(s, table, Snapshot(sensed), WindowOrigin(old(position)), walkable, tileCost, plan, best)
                && |plan| <= 10
                && position == Replay(old(position), plan[..FirstFailure(moveOk, |plan|)])
                && calls == [RobotView, SenseSquare(WindowSide, old(Centre()))]
                            + MoveCalls(plan[..Attempted(moveOk, |plan|)])
                            + DiscoverRange(old(position), plan, Attempted(moveOk, |plan|), |plan|)
    {
      calls := [RobotView];
      plan, s, table, best := [], null, [], (0, 0);
      var actions := Interpret(ticks, energy);
      match actions[0] {
      case Discover =>
        calls := calls + [SenseCentredSquare(DiscoverSide)];
      case Explore =>
        var explored;
        ghost var centre := Centre();
        explored, plan, s, table, best := RunExplore(sensed, known, walkable, tileCost, moveOk);
        ghost var attempted := Attempted(moveOk, |plan|);
        LogAssoc(RobotView, SenseSquare(WindowSide, centre), MoveCalls(plan[..attempted]),
                 DiscoverRange(old(position), plan, attempted, |plan|));
        calls := calls + explored;
      case Wait =>
        calls := calls + [LuckySpin];
      case _ =>
      }
      ticks := ticks + 1;
    }
  }
}
