/** Directions, grid coordinates and the replay of a direction sequence,
    shared by the path search and the exploration executor. */
module Geometry {

  /** The four moves of the robot, in the order the search tries them. */
  datatype Direction = Up | Right | Down | Left

  /** A (row, column) position; rows grow downwards, columns to the right. */
  type Coord = (int, int)

  /** The neighbour of `p` one step in direction `d`:
      Up = (-1, 0), Right = (0, +1), Down = (+1, 0), Left = (0, -1). */
  function Step(p: Coord, d: Direction): Coord {
    match d
    case Up => (p.0 - 1, p.1)
    case Right => (p.0, p.1 + 1)
    case Down => (p.0 + 1, p.1)
    case Left => (p.0, p.1 - 1)
  }

  /** A step moves to one of the four orthogonally adjacent cells: exactly
      one axis changes, by one, and Up and Down are the moves along rows. */
  lemma StepAdjacent(p: Coord, d: Direction)
    ensures Manhattan(p, Step(p, d)) == 1
    ensures (Step(p, d).0 == p.0) != (Step(p, d).1 == p.1)
    ensures d == Up || d == Down <==> Step(p, d).0 != p.0
  {
  }

  /** `a` comes strictly before `b` in row-major order. */
  predicate Before(a: Coord, b: Coord) {
    a.0 < b.0 || (a.0 == b.0 && a.1 < b.1)
  }

  function Abs(x: int): nat {
    if x < 0 then -x else x
  }

  function Manhattan(p: Coord, q: Coord): nat {
    Abs(p.0 - q.0) + Abs(p.1 - q.1)
  }

  /** Where `ds`, walked from `start`, ends. */
  function Replay(start: Coord, ds: seq<Direction>): Coord
    decreases |ds|
  {
    if ds == [] then start else Step(Replay(start, ds[..|ds| - 1]), ds[|ds| - 1])
  }

  lemma ReplayPush(start: Coord, ds: seq<Direction>, d: Direction)
    ensures Replay(start, ds + [d]) == Step(Replay(start, ds), d)
  {
    assert (ds + [d])[..|ds|] == ds;
  }

  /** Walking a sequence never takes more steps than its length. */
  lemma {:induction false} ReplayDistance(start: Coord, ds: seq<Direction>)
    ensures Manhattan(start, Replay(start, ds)) <= |ds|
    decreases |ds|
  {
    if ds != [] {
      ReplayDistance(start, ds[..|ds| - 1]);
    }
  }

  /** Replay commutes with translation: the same directions walked from `b`
      instead of `a` end displaced by exactly `b - a`. */
  lemma {:induction false} ReplayShift(a: Coord, b: Coord, ds: seq<Direction>)
    ensures Replay(b, ds).0 - b.0 == Replay(a, ds).0 - a.0
    ensures Replay(b, ds).1 - b.1 == Replay(a, ds).1 - a.1
    decreases |ds|
  {
    if ds != [] {
      ReplayShift(a, b, ds[..|ds| - 1]);
    }
  }

  /** The contents of a two-dimensional matrix, as rows of values: the sensed
      window the search reads, or the likeability matrix it leaves behind. */
  function Snapshot<T>(a: array2<T>): (s: seq<seq<T>>)
    reads a
    ensures |s| == a.Length0 && forall i :: 0 <= i < a.Length0 ==> |s[i]| == a.Length1
    ensures forall i, j :: 0 <= i < a.Length0 && 0 <= j < a.Length1 ==> s[i][j] == a[i, j]
  {
    seq(a.Length0, i requires 0 <= i < a.Length0 reads a =>
      seq(a.Length1, j requires 0 <= j < a.Length1 reads a => a[i, j]))
  }
}
