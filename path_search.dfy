/** The exploring robot's window search (`path_finder`) and the extraction of
    the best path from its likeability matrix. */
module PathSearch {
  import opened Geometry
  import opened Wrappers

  /** The tile types of the world's catalog. Whether a type can be walked on and
      what stepping on it costs are supplied to the search as oracles. */
  datatype TileType =
    | DeepWater | ShallowWater | Sand | Grass | Street | Hill | Mountain | Snow | Lava
    | Teleport(active: bool) | Wall

  /** A cell of the sensed window: its world coordinate, its tile type and whether
      that tile type is confirmed (sensed or known from the robot's map). */
  datatype Cell = Cell(global: Coord, tileType: TileType, discovered: bool)

  /** A likeability entry: the best score seen for a cell and the path that got it. */
  datatype Entry = Entry(score: int, path: seq<Direction>)

  /** The entry every cell starts with. */
  const Unscored: Entry := Entry(0, [])

  /** A branch is scored only while its accumulated cost stays below this. */
  const Budget: nat := 200
  /** The cost added for the first hop away from the robot. */
  const FirstHopCost: nat := 5
  /** The cost added for every later hop, on top of the tile's own cost. */
  const HopCost: nat := 20
  /** The bonus for passing through a cell whose tile type is not confirmed. */
  const UncoveredBonus: nat := 10

  /** The order in which the search tries the four directions. */
  const Directions: seq<Direction> := [Up, Right, Down, Left]

  predicate IsSquare(window: seq<seq<Cell>>) {
    forall r :: 0 <= r < |window| ==> |window[r]| == |window|
  }

  /** The state of one search over a square window: the read-only window and
      oracles, the visited matrix, the likeability matrix and the path stack.
      `origin` is the window-local cell the search starts from. */
  class Searcher {
    const window: seq<seq<Cell>>
    const n: nat
    const walkable: TileType -> bool
    const tileCost: TileType -> nat
    ghost const origin: Coord
    const visited: array2<bool>
    const likeability: array2<Entry>
    var path: seq<Direction>

    ghost predicate Valid() {
      && n == |window| && IsSquare(window)
      && visited.Length0 == n && visited.Length1 == n
      && likeability.Length0 == n && likeability.Length1 == n
      && InWindow(origin)
    }

    /** Fresh matrices: nothing visited, every entry `(0, [])`, an empty path. */
    constructor (window: seq<seq<Cell>>, walkable: TileType -> bool, tileCost: TileType -> nat,
                 ghost origin: Coord)
      requires IsSquare(window)
      requires 0 <= origin.0 < |window| && 0 <= origin.1 < |window|
      ensures Valid()
      ensures this.window == window && this.walkable == walkable && this.tileCost == tileCost
      ensures this.origin == origin
      ensures fresh(visited) && fresh(likeability)
      ensures forall i, j :: 0 <= i < n && 0 <= j < n ==> !visited[i, j]
      ensures forall i, j :: 0 <= i < n && 0 <= j < n ==> likeability[i, j] == Unscored
      ensures path == []
      ensures AllRecorded()
    {
      this.window := window;
      this.n := |window|;
      this.walkable := walkable;
      this.tileCost := tileCost;
      this.origin := origin;
      this.visited := new bool[|window|, |window|]((i, j) => false);
      this.likeability := new Entry[|window|, |window|]((i, j) => Unscored);
      this.path := [];
    }

    predicate InWindow(p: Coord) {
      0 <= p.0 < n && 0 <= p.1 < n
    }

    predicate Walkable(p: Coord)
      requires Valid()
    {
      InWindow(p) && walkable(window[p.0][p.1].tileType)
    }

    /** The neighbour of `curr` in direction `dir`, or None when it lies outside
        the window (each direction tests only the edge it can cross). */
    function Neighbour(curr: Coord, dir: Direction): (next: Option<Coord>)
      requires InWindow(curr)
      ensures next.Some? <==> InWindow(Step(curr, dir))
      ensures next.Some? ==> next.value == Step(curr, dir)
    {
      match dir
      case Up => if curr.0 - 1 < 0 then None else Some((curr.0 - 1, curr.1))
      case Right => if curr.1 + 1 > n - 1 then None else Some((curr.0, curr.1 + 1))
      case Down => if curr.0 + 1 > n - 1 then None else Some((curr.0 + 1, curr.1))
      case Left => if curr.1 - 1 < 0 then None else Some((curr.0, curr.1 - 1))
    }

    /** The Manhattan distance of `p` from the window's centre cell
        (`DistanceBounds`). */
    function Distance(p: Coord): (d: nat)
    {
      Abs(p.0 - n / 2) + Abs(p.1 - n / 2)
    }

    // ---------------------------------------------------------------------
    // What the search computes along a path, as functions of the path alone

    ghost function CostAt(p: Coord): nat
      requires Valid()
    {
      if InWindow(p) then tileCost(window[p.0][p.1].tileType) else 0
    }

    ghost function BonusAt(p: Coord): nat
      requires Valid()
    {
      if InWindow(p) && !window[p.0][p.1].discovered then UncoveredBonus else 0
    }

    /** The accumulated cost the search carries into the cell that `p` reaches. */
    ghost function ArrivalCost(p: seq<Direction>): (c: nat)
      requires Valid()
      ensures c == 0 <==> p == []
      decreases |p|
    {
      if |p| == 0 then 0
      else if |p| == 1 then FirstHopCost
      else
        var q := p[..|p| - 1];
        ArrivalCost(q) + CostAt(Replay(origin, q)) + HopCost
    }

    /** The cost compared against the budget when the cell that `p` reaches is scored. */
    ghost function ScoredCost(p: seq<Direction>): nat
      requires Valid()
    {
      ArrivalCost(p) + CostAt(Replay(origin, p))
    }

    /** The uncovered-tiles counter the search carries into the cell that `p` reaches. */
    ghost function Uncovered(p: seq<Direction>): (u: nat)
      requires Valid()
      ensures u >= 1
      decreases |p|
    {
      if |p| <= 1 then 1
      else
        var q := p[..|p| - 1];
        Uncovered(q) + BonusAt(Replay(origin, q))
    }

    /** The counter after the cell that `p` reaches has been counted. */
    ghost function UTile(p: seq<Direction>): (u: nat)
      requires Valid()
      ensures Uncovered(p) <= u <= Uncovered(p) + UncoveredBonus
    {
      Uncovered(p) + BonusAt(Replay(origin, p))
    }

    /** The likeability of the cell that `p` reaches, when reached by `p`
        (`ScoreBounds`, `ScoreAllUncovered`). */
    ghost function Score(p: seq<Direction>): (s: int)
      requires Valid()
    {
      UTile(p) * Distance(Replay(origin, p))
    }

    /** Every cell on `p`, the origin included, is inside the window and walkable. */
    ghost predicate Route(p: seq<Direction>)
      requires Valid()
      decreases |p|
    {
      Walkable(Replay(origin, p)) && (p == [] || Route(p[..|p| - 1]))
    }

    /** A likeability entry is either untouched or was written by a walk from
        the origin along walkable cells that ends on `cell`, within the budget,
        with the score that walk earns. */
    ghost predicate Recorded(cell: Coord, e: Entry)
      requires Valid()
    {
      || e == Unscored
      || (&& e.path != []
          && Route(e.path)
          && Replay(origin, e.path) == cell
          && ScoredCost(e.path) < Budget
          && e.score == Score(e.path))
    }

    /** A later call along `p` scores its cell within the budget, at least as
        high as the `stored` score: it records `p` and goes on searching. */
    ghost predicate Improves(p: seq<Direction>, stored: int)
      requires Valid()
    {
      ScoredCost(p) < Budget && Score(p) >= stored
    }

    ghost predicate AllRecorded()
      requires Valid()
      reads likeability
    {
      forall i, j :: 0 <= i < n && 0 <= j < n ==> Recorded((i, j), likeability[i, j])
    }

    ghost function Unvisited(): set<Coord>
      requires Valid()
      reads visited
    {
      set i, j | 0 <= i < n && 0 <= j < n && !visited[i, j] :: (i, j)
    }

    // ---------------------------------------------------------------------
    // The search

    /** The depth-first search from `curr`. `prev` is None only on the first
        call. The cell is marked visited for the duration of the call and,
        when it is walkable, each of the four directions is tried in turn. */
    method PathFinder(curr: Coord, prev: Option<Coord>, cost: nat, uncovered: nat)
      requires Valid() && InWindow(curr) && !visited[curr.0, curr.1]
      requires Replay(origin, path) == curr
      requires prev.None? <==> path == []
      requires path != [] ==> Route(path)
      requires cost == ArrivalCost(path) && uncovered == Uncovered(path)
      requires AllRecorded()
      modifies visited, likeability, this`path
      decreases Unvisited(), 0
      ensures path == old(path)
      ensures forall i, j :: 0 <= i < n && 0 <= j < n ==> visited[i, j] == old(visited[i, j])
      ensures forall i, j :: 0 <= i < n && 0 <= j < n ==>
                likeability[i, j].score >= old(likeability[i, j].score)
      ensures forall i, j :: 0 <= i < n && 0 <= j < n && old(visited[i, j]) ==>
                likeability[i, j] == old(likeability[i, j])
      ensures prev.None? ==> likeability[curr.0, curr.1] == old(likeability[curr.0, curr.1])
      ensures !Walkable(curr) ==>
                forall i, j :: 0 <= i < n && 0 <= j < n ==> likeability[i, j] == old(likeability[i, j])
      ensures AllRecorded()
      ensures prev.Some? && Walkable(curr) && ScoredCost(path) < Budget ==>
                likeability[curr.0, curr.1].score >= Score(path)
      ensures prev.Some? && !Improves(path, old(likeability[curr.0, curr.1].score)) ==>
                forall i, j :: 0 <= i < n && 0 <= j < n ==> likeability[i, j] == old(likeability[i, j])
      ensures prev.Some? && Walkable(curr) && Improves(path, old(likeability[curr.0, curr.1].score)) ==>
                likeability[curr.0, curr.1] == Entry(Score(path), path)
      ensures Walkable(curr) && (prev.None? || Improves(path, old(likeability[curr.0, curr.1].score))) ==>
                forall d :: d in Directions && Walkable(Step(curr, d)) && !visited[Step(curr, d).0, Step(curr, d).1]
                            && ScoredCost(path + [d]) < Budget ==>
                  likeability[Step(curr, d).0, Step(curr, d).1].score >= Score(path + [d])
    {
      visited[curr.0, curr.1] := true;
      if Walkable(curr) {
        assert Unvisited() < old(Unvisited()) by {
          assert curr in old(Unvisited());
          assert curr !in Unvisited();
        }
        TryDirections(curr, prev, cost, uncovered);
        label searched:
        visited[curr.0, curr.1] := false;
        if prev.None? || Improves(path, old(likeability[curr.0, curr.1].score)) {
          forall d | d in Directions && Walkable(Step(curr, d)) && !visited[Step(curr, d).0, Step(curr, d).1]
                     && ScoredCost(path + [d]) < Budget
            ensures likeability[Step(curr, d).0, Step(curr, d).1].score >= Score(path + [d])
          {
            StepAdjacent(curr, d);
            assert !old@searched(visited[Step(curr, d).0, Step(curr, d).1]);
          }
        }
      } else {
        visited[curr.0, curr.1] := false;
      }
    }

    /** The direction loop of the search at a walkable `curr`, which the search
        has just marked visited: `TryDirection` for Up, Right, Down, Left. */
    method TryDirections(curr: Coord, prev: Option<Coord>, cost: nat, uncovered: nat)
      requires Valid() && InWindow(curr) && visited[curr.0, curr.1] && Walkable(curr)
      requires Replay(origin, path) == curr
      requires prev.None? <==> path == []
      requires path != [] ==> Route(path)
      requires cost == ArrivalCost(path) && uncovered == Uncovered(path)
      requires AllRecorded()
      modifies visited, likeability, this`path
      decreases Unvisited(), 3
      ensures path == old(path)
      ensures forall i, j :: 0 <= i < n && 0 <= j < n ==> visited[i, j] == old(visited[i, j])
      ensures forall i, j :: 0 <= i < n && 0 <= j < n ==>
                likeability[i, j].score >= old(likeability[i, j].score)
      ensures forall i, j :: 0 <= i < n && 0 <= j < n && old(visited[i, j]) && (i, j) != curr ==>
                likeability[i, j] == old(likeability[i, j])
      ensures prev.None? ==> likeability[curr.0, curr.1] == old(likeability[curr.0, curr.1])
      ensures AllRecorded()
      ensures prev.Some? && !Improves(path, old(likeability[curr.0, curr.1].score)) ==>
                forall i, j :: 0 <= i < n && 0 <= j < n ==> likeability[i, j] == old(likeability[i, j])
      ensures prev.Some? && Improves(path, old(likeability[curr.0, curr.1].score)) ==>
                likeability[curr.0, curr.1] == Entry(Score(path), path)
      ensures prev.None? || Improves(path, old(likeability[curr.0, curr.1].score)) ==>
                forall d :: d in Directions && Walkable(Step(curr, d)) && !visited[Step(curr, d).0, Step(curr, d).1]
                            && ScoredCost(path + [d]) < Budget ==>
                  likeability[Step(curr, d).0, Step(curr, d).1].score >= Score(path + [d])
    {
      ghost var improving := prev.Some? && Improves(path, likeability[curr.0, curr.1].score);
      ghost var expanding := prev.None? || improving;
      assert Route(path);
      for k := 0 to |Directions|
        invariant path == old(path)
        invariant forall i, j :: 0 <= i < n && 0 <= j < n ==> visited[i, j] == old(visited[i, j])
        invariant forall i, j :: 0 <= i < n && 0 <= j < n ==>
                    likeability[i, j].score >= old(likeability[i, j].score)
        invariant forall i, j :: 0 <= i < n && 0 <= j < n && old(visited[i, j]) && (i, j) != curr ==>
                    likeability[i, j] == old(likeability[i, j])
        invariant prev.None? ==> likeability[curr.0, curr.1] == old(likeability[curr.0, curr.1])
        invariant AllRecorded()
        invariant prev.Some? && !improving ==>
                    forall i, j :: 0 <= i < n && 0 <= j < n ==> likeability[i, j] == old(likeability[i, j])
        invariant k == 0 ==> likeability[curr.0, curr.1] == old(likeability[curr.0, curr.1])
        invariant k > 0 && improving ==> likeability[curr.0, curr.1] == Entry(Score(path), path)
        invariant expanding ==>
                    forall m :: 0 <= m < k && Walkable(Step(curr, Directions[m]))
                                && !visited[Step(curr, Directions[m]).0, Step(curr, Directions[m]).1]
                                && ScoredCost(path + [Directions[m]]) < Budget ==>
                      likeability[Step(curr, Directions[m]).0, Step(curr, Directions[m]).1].score
                        >= Score(path + [Directions[m]])
      {
        if improving {
          assert Improves(path, likeability[curr.0, curr.1].score);
        }
        label tried:
        TryDirection(curr, prev, Directions[k], cost, uncovered);
        if expanding {
          forall m | 0 <= m < k + 1 && Walkable(Step(curr, Directions[m]))
                     && !visited[Step(curr, Directions[m]).0, Step(curr, Directions[m]).1]
                     && ScoredCost(path + [Directions[m]]) < Budget
            ensures likeability[Step(curr, Directions[m]).0, Step(curr, Directions[m]).1].score
                      >= Score(path + [Directions[m]])
          {
            if m < k {
              var c := Step(curr, Directions[m]);
              assert likeability[c.0, c.1].score >= old@tried(likeability[c.0, c.1].score);
            }
          }
        }
      }
      if expanding {
        forall d | d in Directions && Walkable(Step(curr, d)) && !visited[Step(curr, d).0, Step(curr, d).1]
                   && ScoredCost(path + [d]) < Budget
          ensures likeability[Step(curr, d).0, Step(curr, d).1].score >= Score(path + [d])
        {
          assert Directions[DirectionIndex(d)] == d;
        }
      }
    }

    /** One round of the direction loop of the search at `curr`. The neighbour
        in `dir` is a candidate when it is inside the window, not visited and
        walkable. The first call only steps into the candidate (cost + 5).
        Later calls add the cell's cost; only while that stays under the
        budget do they score the cell and, when the score is at least the
        stored one, overwrite the entry and step into the candidate
        (cost + 20). A step pushes `dir` on the path and pops it afterwards. */
    method TryDirection(curr: Coord, prev: Option<Coord>, dir: Direction, cost: nat, uncovered: nat)
      requires Valid() && InWindow(curr) && visited[curr.0, curr.1] && Walkable(curr)
      requires Replay(origin, path) == curr && Route(path)
      requires prev.None? <==> path == []
      requires cost == ArrivalCost(path) && uncovered == Uncovered(path)
      requires AllRecorded()
      modifies visited, likeability, this`path
      decreases Unvisited(), 2
      ensures path == old(path)
      ensures forall i, j :: 0 <= i < n && 0 <= j < n ==> visited[i, j] == old(visited[i, j])
      ensures forall i, j :: 0 <= i < n && 0 <= j < n ==>
                likeability[i, j].score >= old(likeability[i, j].score)
      ensures forall i, j :: 0 <= i < n && 0 <= j < n && old(visited[i, j]) && (i, j) != curr ==>
                likeability[i, j] == old(likeability[i, j])
      ensures prev.None? ==> likeability[curr.0, curr.1] == old(likeability[curr.0, curr.1])
      ensures AllRecorded()
      ensures prev.Some? && ScoredCost(path) < Budget ==> likeability[curr.0, curr.1].score >= Score(path)
      ensures prev.Some? && !Improves(path, old(likeability[curr.0, curr.1].score)) ==>
                forall i, j :: 0 <= i < n && 0 <= j < n ==> likeability[i, j] == old(likeability[i, j])
      ensures prev.Some? && Improves(path, old(likeability[curr.0, curr.1].score)) ==>
                likeability[curr.0, curr.1] == Entry(Score(path), path)
      ensures (prev.None? || Improves(path, old(likeability[curr.0, curr.1].score)))
              && Walkable(Step(curr, dir)) && !visited[Step(curr, dir).0, Step(curr, dir).1]
              && ScoredCost(path + [dir]) < Budget ==>
                likeability[Step(curr, dir).0, Step(curr, dir).1].score >= Score(path + [dir])
    {
      var next := Neighbour(curr, dir);
      if next.Some? && (visited[next.value.0, next.value.1] || !Walkable(next.value)) {
        next := None;
      }
      if prev.Some? {
        var cost' := cost + tileCost(window[curr.0][curr.1].tileType);
        if cost' < Budget {
          var uTile := uncovered;
          if !window[curr.0][curr.1].discovered {
            uTile := uTile + UncoveredBonus;
          }
          var score := uTile * Distance(curr);
          assert ScoredCost(path) == cost' && UTile(path) == uTile && Score(path) == score;
          if score >= likeability[curr.0, curr.1].score {
            Record(curr, Entry(score, path));
            if next.Some? && Walkable(next.value) {
              Descend(curr, dir, next.value, cost' + HopCost, uTile);
            }
          }
        }
      } else if next.Some? && Walkable(next.value) {
        Descend(curr, dir, next.value, cost + FirstHopCost, uncovered);
      }
    }

    /** Overwrites the entry of `curr` with a score at least the stored one. */
    method Record(curr: Coord, e: Entry)
      requires Valid() && InWindow(curr) && Recorded(curr, e)
      requires e.score >= likeability[curr.0, curr.1].score
      requires AllRecorded()
      modifies likeability
      ensures forall i, j :: 0 <= i < n && 0 <= j < n ==>
                likeability[i, j] == if (i, j) == curr then e else old(likeability[i, j])
      ensures AllRecorded()
    {
      likeability[curr.0, curr.1] := e;
    }

    /** Pushes `dir` on the path, searches from `next`, pops `dir`. */
    method Descend(curr: Coord, dir: Direction, next: Coord, cost: nat, uncovered: nat)
      requires Valid() && InWindow(curr) && visited[curr.0, curr.1]
      requires Replay(origin, path) == curr && Route(path)
      requires next == Step(curr, dir) && Walkable(next) && !visited[next.0, next.1]
      requires path == [] ==> cost == FirstHopCost && uncovered == 1
      requires path != [] ==> cost == ScoredCost(path) + HopCost && uncovered == UTile(path)
      requires AllRecorded()
      modifies visited, likeability, this`path
      decreases Unvisited(), 1
      ensures path == old(path)
      ensures forall i, j :: 0 <= i < n && 0 <= j < n ==> visited[i, j] == old(visited[i, j])
      ensures forall i, j :: 0 <= i < n && 0 <= j < n ==>
                likeability[i, j].score >= old(likeability[i, j].score)
      ensures forall i, j :: 0 <= i < n && 0 <= j < n && old(visited[i, j]) ==>
                likeability[i, j] == old(likeability[i, j])
      ensures AllRecorded()
      ensures ScoredCost(path + [dir]) < Budget ==> likeability[next.0, next.1].score >= Score(path + [dir])
    {
      ReplayPush(origin, path, dir);
      assert (path + [dir])[..|path|] == path;
      assert Route(path + [dir]);
      path := path + [dir];
      PathFinder(next, Some(curr), cost, uncovered);
      path := path[..|path| - 1];
    }

    // ---------------------------------------------------------------------
    // Properties of recorded entries

    /** A route starts on a walkable cell. */
    lemma {:induction false} RouteStartsWalkable(p: seq<Direction>)
      requires Valid() && Route(p)
      ensures Walkable(origin)
      decreases |p|
    {
      if p != [] {
        RouteStartsWalkable(p[..|p| - 1]);
      }
    }

    /** Every prefix of a route is a route, so every cell a route passes
        through is inside the window and walkable. */
    lemma {:induction false} RoutePrefix(p: seq<Direction>, k: nat)
      requires Valid() && Route(p) && k <= |p|
      ensures Route(p[..k]) && Walkable(Replay(origin, p[..k]))
      decreases |p|
    {
      if k < |p| {
        assert p[..|p| - 1][..k] == p[..k];
        RoutePrefix(p[..|p| - 1], k);
      } else {
        assert p[..k] == p;
      }
    }

    /** When the search starts on a non-walkable cell, no entry can be anything
        but `(0, [])`. */
    lemma NonWalkableOriginUnscored(cell: Coord, e: Entry)
      requires Valid() && !Walkable(origin) && Recorded(cell, e)
      ensures e == Unscored
    {
      if e != Unscored {
        RouteStartsWalkable(e.path);
      }
    }

    /** Every hop after the first costs at least `HopCost`. */
    lemma {:induction false} ArrivalCostGrows(p: seq<Direction>)
      requires Valid() && |p| >= 1
      ensures ArrivalCost(p) >= FirstHopCost + HopCost * (|p| - 1)
      decreases |p|
    {
      if |p| > 1 {
        ArrivalCostGrows(p[..|p| - 1]);
      }
    }

    /** The budget bounds the depth: a recorded path has at most ten steps. */
    lemma RecordedDepth(cell: Coord, e: Entry)
      requires Valid() && Recorded(cell, e)
      ensures |e.path| <= 10
    {
      if e != Unscored {
        ArrivalCostGrows(e.path);
      }
    }

    /** The counter starts at one and gains at most the bonus per cell it
        has left behind (all cells of `p` but the one it reaches). */
    lemma {:induction false} UncoveredBounds(p: seq<Direction>)
      requires Valid()
      ensures 1 <= Uncovered(p)
      ensures |p| >= 1 ==> Uncovered(p) <= 1 + UncoveredBonus * (|p| - 1)
      decreases |p|
    {
      if |p| > 1 {
        UncoveredBounds(p[..|p| - 1]);
      }
    }

    /** When no cell of the window is confirmed, every cell a route passes
        earns the bonus: the cell a route of `k >= 1` steps reaches is scored
        `(1 + 10 k)` times its distance from the centre. */
    lemma {:induction false} ScoreAllUncovered(p: seq<Direction>)
      requires Valid() && |p| >= 1 && Route(p)
      requires forall i, j :: 0 <= i < n && 0 <= j < n ==> !window[i][j].discovered
      ensures Uncovered(p) == 1 + UncoveredBonus * (|p| - 1)
      ensures Score(p) == (1 + UncoveredBonus * |p|) * Distance(Replay(origin, p))
      decreases |p|
    {
      if |p| > 1 {
        ScoreAllUncovered(p[..|p| - 1]);
      }
    }

    /** Only the centre is at distance zero, and no cell of the window is
        farther than its corners. */
    lemma DistanceBounds(p: Coord)
      ensures Distance(p) == 0 <==> p == (n / 2, n / 2)
      ensures InWindow(p) ==> Distance(p) <= 2 * (n / 2)
    {
    }

    /** Every cell a walk reaches scores at least its distance from the
        centre (the counter is at least one), and the centre cell scores zero. */
    lemma ScoreBounds(p: seq<Direction>)
      requires Valid()
      ensures Score(p) >= Distance(Replay(origin, p))
      ensures Replay(origin, p) == (n / 2, n / 2) ==> Score(p) == 0
    {
      MulMono(1, UTile(p), Distance(Replay(origin, p)));
    }

    /** A recorded score is never negative and never more than the bonus count
        times the distance of its cell from the centre; `ScoreAllUncovered`
        shows the upper bound is reached. */
    lemma RecordedScoreBounds(cell: Coord, e: Entry)
      requires Valid() && Recorded(cell, e) && e != Unscored
      ensures 0 <= e.score <= (1 + UncoveredBonus * |e.path|) * Distance(cell)
    {
      var u, d, b := UTile(e.path), Distance(cell), 1 + UncoveredBonus * |e.path|;
      UncoveredBounds(e.path);
      assert u <= b;
      MulMono(u, b, d);
      assert e.score == u * d;
    }
  }

  /** What a whole search from `s.origin` leaves in the likeability matrix
      `table`: every entry was recorded by a walk within the budget, and,
      when the origin is walkable, every walkable neighbour of it that the
      budget admits holds at least the score of the one-step walk to it. */
  ghost predicate Searched(s: Searcher, table: seq<seq<Entry>>)
    requires s.Valid()
  {
    && |table| == s.n && (forall i :: 0 <= i < s.n ==> |table[i]| == s.n)
    && (forall i, j :: 0 <= i < s.n && 0 <= j < s.n ==> s.Recorded((i, j), table[i][j]))
    && (s.Walkable(s.origin) ==>
          forall d :: s.Walkable(Step(s.origin, d)) && s.ScoredCost([d]) < Budget ==>
            table[Step(s.origin, d).0][Step(s.origin, d).1].score >= s.Score([d]))
  }

  /** `plan` is the path `BestPath` extracts from `table`: empty when nothing
      scored above zero; otherwise the path stored at `best`, whose score no
      entry exceeds and every entry before `best` in row-major order falls
      short of. */
  ghost predicate PlanIsBest(s: Searcher, table: seq<seq<Entry>>, plan: seq<Direction>, best: Coord)
    requires s.Valid() && |table| == s.n && forall i :: 0 <= i < s.n ==> |table[i]| == s.n
  {
    if plan == [] then
      forall i, j :: 0 <= i < s.n && 0 <= j < s.n ==> table[i][j].score <= 0
    else
      && s.InWindow(best)
      && table[best.0][best.1] == Entry(s.Score(plan), plan)
      && (forall i, j :: 0 <= i < s.n && 0 <= j < s.n ==> table[i][j].score <= s.Score(plan))
      && (forall i, j :: 0 <= i < s.n && 0 <= j < s.n && Before((i, j), best) ==>
            table[i][j].score < s.Score(plan))
  }

  /** The plan is never empty when the origin is walkable and a walkable
      neighbour of it, within the budget, scores above zero. */
  lemma SearchedPlanNonEmpty(s: Searcher, table: seq<seq<Entry>>, plan: seq<Direction>, best: Coord, d: Direction)
    requires s.Valid() && Searched(s, table) && PlanIsBest(s, table, plan, best)
    requires s.Walkable(s.origin) && s.Walkable(Step(s.origin, d))
    requires s.ScoredCost([d]) < Budget && s.Score([d]) > 0
    ensures plan != []
  {
    var c := Step(s.origin, d);
    assert table[c.0][c.1].score >= s.Score([d]);
  }

  /** The state a finished first call leaves behind, read as a snapshot. */
  lemma SearchedSnapshot(s: Searcher)
    requires s.Valid() && s.AllRecorded() && s.path == []
    requires forall i, j :: 0 <= i < s.n && 0 <= j < s.n ==> !s.visited[i, j]
    requires s.Walkable(s.origin) ==>
               forall d :: d in Directions && s.Walkable(Step(s.origin, d))
                           && !s.visited[Step(s.origin, d).0, Step(s.origin, d).1]
                           && s.ScoredCost(s.path + [d]) < Budget ==>
                 s.likeability[Step(s.origin, d).0, Step(s.origin, d).1].score >= s.Score(s.path + [d])
    ensures Searched(s, Snapshot(s.likeability))
  {
    var table := Snapshot(s.likeability);
    forall i, j | 0 <= i < s.n && 0 <= j < s.n
      ensures s.Recorded((i, j), table[i][j])
    {
      assert table[i][j] == s.likeability[i, j];
    }
    forall d | s.Walkable(s.origin) && s.Walkable(Step(s.origin, d)) && s.ScoredCost([d]) < Budget
      ensures table[Step(s.origin, d).0][Step(s.origin, d).1].score >= s.Score([d])
    {
      var c := Step(s.origin, d);
      AllDirections(d);
      assert s.path + [d] == [d];
      assert table[c.0][c.1] == s.likeability[c.0, c.1];
    }
  }

  /** The position of `d` in `Directions`. */
  function DirectionIndex(d: Direction): (m: nat)
    ensures m < |Directions| && Directions[m] == d
  {
    match d
    case Up => 0
    case Right => 1
    case Down => 2
    case Left => 3
  }

  lemma AllDirections(d: Direction)
    ensures d in Directions
  {
  }

  lemma MulMono(a: nat, b: nat, d: nat)
    requires a <= b
    ensures 0 <= a * d <= b * d
  {
  }

  // -----------------------------------------------------------------------
  // Best-path extraction

  /** Scans the likeability matrix row by row and keeps the first cell whose
      score is strictly greater than everything before it (starting from 0). */
  method BestPath(m: array2<Entry>) returns (path: seq<Direction>, max: int, ghost best: Coord)
    ensures max >= 0
    ensures forall i, j :: 0 <= i < m.Length0 && 0 <= j < m.Length1 ==> m[i, j].score <= max
    ensures max == 0 ==> path == []
    ensures max > 0 ==> && 0 <= best.0 < m.Length0 && 0 <= best.1 < m.Length1
                        && m[best.0, best.1].score == max
                        && path == m[best.0, best.1].path
    ensures max > 0 ==> forall i, j ::
              0 <= i < m.Length0 && 0 <= j < m.Length1 && Before((i, j), best) ==> m[i, j].score < max
  {
    path, max, best := [], 0, (0, 0);
    for r := 0 to m.Length0
      invariant max >= 0
      invariant forall i, j :: 0 <= i < r && 0 <= j < m.Length1 ==> m[i, j].score <= max
      invariant max == 0 ==> path == []
      invariant max > 0 ==> && 0 <= best.0 < r && 0 <= best.1 < m.Length1
                            && m[best.0, best.1].score == max
                            && path == m[best.0, best.1].path
      invariant max > 0 ==> forall i, j ::
                  0 <= i < m.Length0 && 0 <= j < m.Length1 && Before((i, j), best) ==> m[i, j].score < max
    {
      for c := 0 to m.Length1
        invariant max >= 0
        invariant forall i, j :: 0 <= i < r && 0 <= j < m.Length1 ==> m[i, j].score <= max
        invariant forall j :: 0 <= j < c ==> m[r, j].score <= max
        invariant max == 0 ==> path == []
        invariant max > 0 ==> && (best.0 < r || (best.0 == r && best.1 < c))
                              && 0 <= best.0 && 0 <= best.1 < m.Length1
                              && m[best.0, best.1].score == max
                              && path == m[best.0, best.1].path
        invariant max > 0 ==> forall i, j ::
                    0 <= i < m.Length0 && 0 <= j < m.Length1 && Before((i, j), best) ==> m[i, j].score < max
      {
        if m[r, c].score > max {
          path := m[r, c].path;
          max := m[r, c].score;
          best := (r, c);
        }
      }
    }
  }

  // -----------------------------------------------------------------------
  // One whole search

  /** Builds fresh matrices over `window` and runs the first call of the
      search from `origin`, with cost 0 and the counter at 1. */
  method RunSearch(window: seq<seq<Cell>>, walkable: TileType -> bool, tileCost: TileType -> nat, origin: Coord)
    returns (s: Searcher)
    requires IsSquare(window)
    requires 0 <= origin.0 < |window| && 0 <= origin.1 < |window|
    ensures s.Valid() && s.window == window && s.origin == origin
    ensures s.walkable == walkable && s.tileCost == tileCost
    ensures Searched(s, Snapshot(s.likeability))
  {
    s := new Searcher(window, walkable, tileCost, origin);
    s.PathFinder(origin, None, 0, 1);
    SearchedSnapshot(s);
  }

  /** Builds fresh matrices over `window`, searches from `origin` and extracts
      the best path: empty when no cell scored above zero, otherwise the path
      of the first cell (row-major) with the highest score, which is a
      walkable route from `origin` within the budget. */
  method SearchWindow(window: seq<seq<Cell>>, walkable: TileType -> bool, tileCost: TileType -> nat,
                      origin: Coord)
    returns (plan: seq<Direction>, ghost s: Searcher, ghost table: seq<seq<Entry>>, ghost best: Coord)
    requires IsSquare(window)
    requires 0 <= origin.0 < |window| && 0 <= origin.1 < |window|
    ensures s.Valid() && s.window == window && s.origin == origin
    ensures s.walkable == walkable && s.tileCost == tileCost
    ensures table == Snapshot(s.likeability)
    ensures Searched(s, table) && PlanIsBest(s, table, plan, best)
    ensures |plan| <= 10
    ensures !s.Walkable(origin) ==> plan == []
    ensures plan != [] ==> && s.InWindow(best) && s.Route(plan) && Replay(origin, plan) == best
                           && s.ScoredCost(plan) < Budget
  {
    var search := RunSearch(window, walkable, tileCost, origin);
    s := search;
    table := Snapshot(s.likeability);
    var max;
    plan, max, best := BestPath(search.likeability);
    if max > 0 {
      var e := s.likeability[best.0, best.1];
      assert s.Recorded(best, e);
      s.RecordedDepth(best, e);
      s.RouteStartsWalkable(e.path);
    }
  }
}
