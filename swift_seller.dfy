/** The market-selling tool (`SwiftSeller::swift_seller`): find the adjacent
    market with the most interactions left, then sell the requested items of
    the backpack to it, one `put` per backpack entry, while interactions last. */
module SwiftSeller {
  import opened Geometry
  import opened Wrappers

  /** The kinds of tile content of the world's catalog. Contents are compared
      by kind only; the number a content carries matters only for a market,
      where it is the count of interactions left. */
  datatype Kind =
    | Rock | Tree | Garbage | Fire | Coin | Bin | Crate | Bank | Water | Market
    | Fish | Building | Bush | JollyBlock | Scarecrow | NoContent

  /** The content of a tile of the robot's view. */
  datatype Content = Content(kind: Kind, amount: nat)

  /** The 3 x 3 view around the robot; `None` where the robot cannot see. */
  type View = seq<seq<Option<Content>>>

  datatype LibError = OperationNotAllowed | NotEnoughSpace(tried: nat)

  /** What the tool ends with: the map of sold quantities, an error, or a
      panic of the tool itself. */
  datatype Outcome = Ok(sold: map<Kind, nat>) | Err(error: LibError) | Panic

  /** The world's reply to a `put`: accepted, with the quantity of the item the
      backpack holds afterwards; refused for lack of space; or any other error. */
  datatype PutReply = Accepted(remaining: nat) | NoSpace(tried: nat) | OtherError

  /** Answers the `put` with the given index (0 for the first call) for the
      given item, quantity and direction. */
  type PutOracle = (nat, Kind, nat, Direction) -> PutReply

  /** Only these kinds are ever offered to the market. */
  predicate Sellable(k: Kind) {
    k == Rock || k == Fish || k == Tree
  }

  // -----------------------------------------------------------------------
  // The market scan

  /** The view cells orthogonally adjacent to the robot, with the direction
      that leads to them; the robot itself and the corners are not inspected. */
  function AdjacentDirection(i: nat, j: nat): Option<Direction> {
    if (i, j) == (0, 1) then Some(Up)
    else if (i, j) == (1, 0) then Some(Left)
    else if (i, j) == (1, 2) then Some(Right)
    else if (i, j) == (2, 1) then Some(Down)
    else None
  }

  /** The interactions a view cell offers: a market's count when the cell is
      adjacent, zero otherwise. */
  function Offer(view: View, i: nat, j: nat): nat
    requires i < |view| && j < |view[i]|
  {
    if AdjacentDirection(i, j).Some? && view[i][j].Some? && view[i][j].value.kind == Market
    then view[i][j].value.amount
    else 0
  }

  predicate InView(view: View, p: (nat, nat)) {
    p.0 < |view| && p.1 < |view[p.0]|
  }

  /** No adjacent cell holds a market with interactions left. */
  predicate NoMarket(view: View) {
    forall i: nat, j: nat :: i < |view| && j < |view[i]| ==> Offer(view, i, j) == 0
  }

  /** `at` is the first cell, in row-major order, holding the largest offer,
      which is `n > 0`, and `d` is the direction towards it. */
  predicate ChosenAt(view: View, at: (nat, nat), n: nat, d: Direction) {
    && InView(view, at) && n > 0
    && Offer(view, at.0, at.1) == n && AdjacentDirection(at.0, at.1) == Some(d)
    && (forall i: nat, j: nat :: i < |view| && j < |view[i]| ==> Offer(view, i, j) <= n)
    && (forall i: nat, j: nat :: i < |view| && j < |view[i]| && Before((i, j), at) ==> Offer(view, i, j) < n)
  }

  /** There is one choice at most: the market with the most interactions
      left, the first one in scan order on a tie. */
  lemma ChosenUnique(view: View, a: (nat, nat), n: nat, d: Direction, b: (nat, nat), m: nat, e: Direction)
    requires ChosenAt(view, a, n, d) && ChosenAt(view, b, m, e)
    ensures a == b && n == m && d == e
  {
    assert Offer(view, a.0, a.1) == n && Offer(view, b.0, b.1) == m;
  }

  /** One cell of the scan: whether it is an adjacent market offering more
      than `highest` interactions, and then its count and the direction to it. */
  method ScanCell(view: View, i: nat, j: nat, highest: nat) returns (better: bool, amount: nat, dir: Direction)
    requires i < |view| && j < |view[i]|
    ensures better <==> Offer(view, i, j) > highest
    ensures better ==> amount == Offer(view, i, j) && AdjacentDirection(i, j) == Some(dir)
  {
    better, amount, dir := false, 0, Left;
    var adjacent := AdjacentDirection(i, j);
    if adjacent.Some? {
      match view[i][j]
      case None =>
      case Some(tile) =>
        if tile.kind == Market && tile.amount > highest {
          better, amount, dir := true, tile.amount, adjacent.value;
        }
    }
  }

  /** Scans the view row by row for an adjacent market; a market replaces the
      current choice only when it offers strictly more interactions. */
  method ScanForMarket(view: View) returns (near: bool, dir: Direction, interactions: nat, ghost at: (nat, nat))
    ensures near <==> !NoMarket(view)
    ensures !near ==> dir == Left && interactions == 0
    ensures near ==> ChosenAt(view, at, interactions, dir)
  {
    near, dir, interactions := false, Left, 0;
    var highest: nat := 0;
    at := (0, 0);
    for i := 0 to |view|
      invariant interactions == highest
      invariant near <==> highest > 0
      invariant !near ==> dir == Left
      invariant forall i': nat, j': nat :: i' < i && j' < |view[i']| ==> Offer(view, i', j') <= highest
      invariant near ==> && InView(view, at) && at.0 < i
                         && Offer(view, at.0, at.1) == highest && AdjacentDirection(at.0, at.1) == Some(dir)
      invariant near ==> forall i': nat, j': nat ::
                  i' < |view| && j' < |view[i']| && Before((i', j'), at) ==> Offer(view, i', j') < highest
    {
      for j := 0 to |view[i]|
        invariant interactions == highest
        invariant near <==> highest > 0
        invariant !near ==> dir == Left
        invariant forall i': nat, j': nat :: i' < i && j' < |view[i']| ==> Offer(view, i', j') <= highest
        invariant forall j': nat :: j' < j ==> Offer(view, i, j') <= highest
        invariant near ==> && InView(view, at) && (at.0 < i || (at.0 == i && at.1 < j))
                           && Offer(view, at.0, at.1) == highest && AdjacentDirection(at.0, at.1) == Some(dir)
        invariant near ==> forall i': nat, j': nat ::
                    i' < |view| && j' < |view[i']| && Before((i', j'), at) ==> Offer(view, i', j') < highest
      {
        ghost var before := highest;
        var better, amount, towards := ScanCell(view, i, j, highest);
        if better {
          interactions := amount;
          highest := amount;
          near := true;
          dir := towards;
          at := (i, j);
        }
        forall j': nat | j' < j + 1
          ensures Offer(view, i, j') <= highest
        {
          if j' < j {
            assert Offer(view, i, j') <= before;
          }
        }
      }
    }
    if !near {
      assert NoMarket(view);
    }
  }

  // -----------------------------------------------------------------------
  // The selling loop, as a function of its inputs

  /** The variables of the selling loop: interactions left, whether anything
      was sold, the sold map and the number of `put` calls made so far. */
  datatype SellState = SellState(left: nat, soldAnything: bool, sold: map<Kind, nat>, puts: nat)

  /** The loop is still running, or it has returned `outcome`. */
  datatype Progress = Running(st: SellState) | Done(outcome: Outcome)

  /** One round of the inner loop: request `req` meets backpack entry `entry`.
      With no interactions left the tool returns what it sold (an error if
      nothing). A matching entry with a positive quantity is put to the
      market in full; what the backpack still holds afterwards is not sold. */
  function Visit(p: Progress, req: Kind, entry: (Kind, nat), dir: Direction, put: PutOracle): (r: Progress)
    ensures p.Done? ==> r == p
    ensures r.Running? ==> p.Running? && r.st.left + r.st.puts == p.st.left + p.st.puts
  {
    match p
    case Done(_) => p
    case Running(st) =>
      if st.left < 1 then
        Done(if st.soldAnything then Ok(st.sold) else Err(OperationNotAllowed))
      else if req == entry.0 && entry.1 > 0 then
        match put(st.puts, entry.0, entry.1, dir)
        case Accepted(remaining) =>
          if remaining > entry.1 then Done(Panic)
          else Running(SellState(st.left - 1, true, st.sold[entry.0 := entry.1 - remaining], st.puts + 1))
        case NoSpace(tried) => Done(Err(NotEnoughSpace(tried)))
        case OtherError => Done(Panic)
      else p
  }

  /** The inner loop: request `req` against every backpack entry in turn. */
  function VisitEntries(p: Progress, req: Kind, entries: seq<(Kind, nat)>, dir: Direction, put: PutOracle)
    : (r: Progress)
    ensures r.Running? ==> p.Running? && r.st.left + r.st.puts == p.st.left + p.st.puts
    decreases |entries|
  {
    if entries == [] then p
    else Visit(VisitEntries(p, req, entries[..|entries| - 1], dir, put), req, entries[|entries| - 1], dir, put)
  }

  /** The outer loop: every sellable request in order; other requests are skipped. */
  function VisitRequests(p: Progress, reqs: seq<Kind>, backpack: seq<(Kind, nat)>, dir: Direction,
                         put: PutOracle): (r: Progress)
    ensures r.Running? ==> p.Running? && r.st.left + r.st.puts == p.st.left + p.st.puts
    decreases |reqs|
  {
    if reqs == [] then p
    else
      var q := VisitRequests(p, reqs[..|reqs| - 1], backpack, dir, put);
      var req := reqs[|reqs| - 1];
      if Sellable(req) then VisitEntries(q, req, backpack, dir, put) else q
  }

  function Start(interactions: nat): Progress {
    Running(SellState(interactions, false, map[], 0))
  }

  /** What the selling loop returns for a market with `interactions` left in
      direction `dir`, the requested items and the backpack's entries in the
      order the backpack yields them. */
  function Selling(interactions: nat, dir: Direction, reqs: seq<Kind>, backpack: seq<(Kind, nat)>,
                   put: PutOracle): Outcome
  {
    match VisitRequests(Start(interactions), reqs, backpack, dir, put)
    case Running(st) => Ok(st.sold)
    case Done(o) => o
  }

  lemma {:induction false} VisitEntriesDone(o: Outcome, req: Kind, entries: seq<(Kind, nat)>, dir: Direction,
                                            put: PutOracle)
    ensures VisitEntries(Done(o), req, entries, dir, put) == Done(o)
    decreases |entries|
  {
    if entries != [] {
      VisitEntriesDone(o, req, entries[..|entries| - 1], dir, put);
    }
  }

  lemma {:induction false} VisitRequestsDone(o: Outcome, reqs: seq<Kind>, backpack: seq<(Kind, nat)>,
                                             dir: Direction, put: PutOracle)
    ensures VisitRequests(Done(o), reqs, backpack, dir, put) == Done(o)
    decreases |reqs|
  {
    if reqs != [] {
      VisitRequestsDone(o, reqs[..|reqs| - 1], backpack, dir, put);
      VisitEntriesDone(o, reqs[|reqs| - 1], backpack, dir, put);
    }
  }

  /** Once the inner loop has returned at entry `b`, the rest of the entries change nothing. */
  lemma {:induction false} VisitEntriesStops(p: Progress, req: Kind, entries: seq<(Kind, nat)>, b: nat,
                                             dir: Direction, put: PutOracle)
    requires b <= |entries| && VisitEntries(p, req, entries[..b], dir, put).Done?
    ensures VisitEntries(p, req, entries, dir, put) == VisitEntries(p, req, entries[..b], dir, put)
    decreases |entries|
  {
    if b < |entries| {
      assert entries[..|entries| - 1][..b] == entries[..b];
      VisitEntriesStops(p, req, entries[..|entries| - 1], b, dir, put);
    } else {
      assert entries[..b] == entries;
    }
  }

  /** Once the outer loop has returned after request `a`, the later requests change nothing. */
  lemma {:induction false} VisitRequestsStops(p: Progress, reqs: seq<Kind>, a: nat, backpack: seq<(Kind, nat)>,
                                              dir: Direction, put: PutOracle)
    requires a <= |reqs| && VisitRequests(p, reqs[..a], backpack, dir, put).Done?
    ensures VisitRequests(p, reqs, backpack, dir, put) == VisitRequests(p, reqs[..a], backpack, dir, put)
    decreases |reqs|
  {
    if a < |reqs| {
      assert reqs[..|reqs| - 1][..a] == reqs[..a];
      VisitRequestsStops(p, reqs[..|reqs| - 1], a, backpack, dir, put);
      var q := VisitRequests(p, reqs[..|reqs| - 1], backpack, dir, put);
      VisitEntriesDone(q.outcome, reqs[|reqs| - 1], backpack, dir, put);
    } else {
      assert reqs[..a] == reqs;
    }
  }

  // -----------------------------------------------------------------------
  // The tool

  /** The whole tool. `view` is the robot's view, `requested` the items the
      caller wants sold in order, `backpack` the backpack's entries in the
      order the backpack yields them, `put` the world's answers. With no
      adjacent market offering interactions the tool refuses; otherwise its
      outcome is that of the selling loop for the chosen market (which
      `ChosenUnique` shows to be the only one). */
  method SellToMarket(view: View, requested: seq<Kind>, backpack: seq<(Kind, nat)>, put: PutOracle)
    returns (outcome: Outcome)
    ensures NoMarket(view) ==> outcome == Err(OperationNotAllowed)
    ensures !NoMarket(view) ==>
              exists at, n, d :: ChosenAt(view, at, n, d) && outcome == Selling(n, d, requested, backpack, put)
  {
    var near, dir, interactions, at := ScanForMarket(view);
    if !near || interactions < 1 {
      return Err(OperationNotAllowed);
    }
    ghost var start := Start(interactions);
    var left: nat, soldAnything: bool, itemsSold: map<Kind, nat>, puts: nat := interactions, false, map[], 0;
    for a := 0 to |requested|
      invariant VisitRequests(start, requested[..a], backpack, dir, put)
                == Running(SellState(left, soldAnything, itemsSold, puts))
    {
      var req := requested[a];
      assert requested[..a + 1][..a] == requested[..a];
      if Sellable(req) {
        var p := SellEntries(SellState(left, soldAnything, itemsSold, puts), req, backpack, dir, put);
        match p
        case Done(o) =>
          outcome := o;
          VisitRequestsStops(start, requested, a + 1, backpack, dir, put);
          return;
        case Running(next) =>
          left, soldAnything, itemsSold, puts := next.left, next.soldAnything, next.sold, next.puts;
      }
    }
    assert requested[..|requested|] == requested;
    outcome := Ok(itemsSold);
  }

  /** The backpack loop for one sellable request `req`, started from the loop
      state `st`: the tool either returns (`Done`) or carries on with the new
      state (`Running`), as `VisitEntries` says. */
  method SellEntries(st: SellState, req: Kind, backpack: seq<(Kind, nat)>, dir: Direction, put: PutOracle)
    returns (p: Progress)
    ensures p == VisitEntries(Running(st), req, backpack, dir, put)
  {
    var state := st;
    for b := 0 to |backpack|
      invariant VisitEntries(Running(st), req, backpack[..b], dir, put) == Running(state)
    {
      assert backpack[..b + 1][..b] == backpack[..b];
      var q := SellEntry(state, req, backpack[b], dir, put);
      if q.Done? {
        p := q;
        VisitEntriesStops(Running(st), req, backpack, b + 1, dir, put);
        return;
      }
      state := q.st;
    }
    assert backpack[..|backpack|] == backpack;
    p := Running(state);
  }

  /** One round of the backpack loop, from the loop state `st`: with no
      interactions left the tool returns; a matching entry with a positive
      quantity is put to the market and the reply decides the rest. */
  method SellEntry(st: SellState, req: Kind, entry: (Kind, nat), dir: Direction, put: PutOracle)
    returns (p: Progress)
    ensures p == Visit(Running(st), req, entry, dir, put)
  {
    var left, soldAnything, itemsSold, puts := st.left, st.soldAnything, st.sold, st.puts;
    if left < 1 {
      return Done(if soldAnything then Ok(itemsSold) else Err(OperationNotAllowed));
    }
    var (item, qty) := entry;
    if req == item && qty > 0 {
      match put(puts, item, qty, dir)
      case Accepted(remaining) =>
        if remaining > qty {
          return Done(Panic);
        }
        var sold := qty - remaining;
        itemsSold := itemsSold[item := sold];
        left := left - 1;
        soldAnything := true;
        puts := puts + 1;
      case NoSpace(tried) =>
        return Done(Err(NotEnoughSpace(tried)));
      case OtherError =>
        return Done(Panic);
    }
    p := Running(SellState(left, soldAnything, itemsSold, puts));
  }

  /** An early return at backpack entry `b` of request `a` is the outcome of the
      whole loop. */
  lemma Finish(start: Progress, before: Progress, reqs: seq<Kind>, a: nat, backpack: seq<(Kind, nat)>, b: nat,
               dir: Direction, put: PutOracle)
    requires a < |reqs| && b < |backpack| && Sellable(reqs[a])
    requires VisitRequests(start, reqs[..a], backpack, dir, put) == before
    requires VisitEntries(before, reqs[a], backpack[..b + 1], dir, put).Done?
    ensures VisitRequests(start, reqs, backpack, dir, put) == VisitEntries(before, reqs[a], backpack[..b + 1], dir, put)
  {
    VisitEntriesStops(before, reqs[a], backpack, b + 1, dir, put);
    assert reqs[..a + 1][..a] == reqs[..a];
    VisitRequestsStops(start, reqs, a + 1, backpack, dir, put);
  }

  // -----------------------------------------------------------------------
  // What the selling loop promises

  /** `sold` has at most `bound` entries, each for a sellable, requested kind
      that the backpack holds; the quantity recorded is what one of the first
      `bound` puts of that backpack entry was accepted for: the entry's
      quantity less what the backpack still held afterwards. */
  ghost predicate SoldFrom(sold: map<Kind, nat>, bound: nat, reqs: seq<Kind>, backpack: seq<(Kind, nat)>,
                           dir: Direction, put: PutOracle) {
    && |sold| <= bound
    && forall k :: k in sold ==>
         Sellable(k) && k in reqs && SoldBy(sold[k], k, bound, backpack, dir, put)
  }

  /** `amount` is what one of the first `bound` puts, of a backpack entry of
      kind `k`, was accepted for. */
  ghost predicate SoldBy(amount: nat, k: Kind, bound: nat, backpack: seq<(Kind, nat)>, dir: Direction,
                         put: PutOracle) {
    exists i: nat, e :: && i < bound && e in backpack && e.0 == k
                        && put(i, e.0, e.1, dir).Accepted?
                        && amount == e.1 - put(i, e.0, e.1, dir).remaining
  }

  /** The invariant of the selling loop for a market that started with `n`
      interactions: every interaction used is one `put`; while running, either
      something was sold or interactions are left; a return is never the
      "nothing sold" error, a sold map satisfies `SoldFrom`, and a lack of
      space is the reply to one of the first `n` puts. */
  ghost predicate Sound(p: Progress, n: nat, reqs: seq<Kind>, backpack: seq<(Kind, nat)>, dir: Direction,
                        put: PutOracle) {
    match p
    case Running(st) =>
      && st.left + st.puts == n
      && (st.soldAnything || st.left >= 1)
      && SoldFrom(st.sold, st.puts, reqs, backpack, dir, put)
    case Done(o) =>
      && o != Err(OperationNotAllowed)
      && (o.Ok? ==> SoldFrom(o.sold, n, reqs, backpack, dir, put))
      && (o.Err? && o.error.NotEnoughSpace? ==>
            exists i: nat, e :: i < n && e in backpack && put(i, e.0, e.1, dir) == NoSpace(o.error.tried))
  }

  lemma VisitSound(p: Progress, n: nat, reqs: seq<Kind>, backpack: seq<(Kind, nat)>, req: Kind, entry: (Kind, nat),
                   dir: Direction, put: PutOracle)
    requires Sound(p, n, reqs, backpack, dir, put)
    requires Sellable(req) && req in reqs && entry in backpack
    ensures Sound(Visit(p, req, entry, dir, put), n, reqs, backpack, dir, put)
  {
    if p.Running? && p.st.left < 1 {
      SoldFromWeaken(p.st.sold, p.st.puts, n, reqs, backpack, dir, put);
    } else if p.Running? && req == entry.0 && entry.1 > 0 {
      PutSound(p.st, n, reqs, backpack, entry, dir, put);
    }
  }

  /** A `put` made while interactions are left keeps the invariant. */
  lemma PutSound(st: SellState, n: nat, reqs: seq<Kind>, backpack: seq<(Kind, nat)>, entry: (Kind, nat),
                 dir: Direction, put: PutOracle)
    requires Sound(Running(st), n, reqs, backpack, dir, put) && st.left >= 1
    requires Sellable(entry.0) && entry.0 in reqs && entry in backpack && entry.1 > 0
    ensures Sound(Visit(Running(st), entry.0, entry, dir, put), n, reqs, backpack, dir, put)
  {
    var q := Visit(Running(st), entry.0, entry, dir, put);
    match put(st.puts, entry.0, entry.1, dir)
    case Accepted(remaining) =>
      if remaining <= entry.1 {
        SoldFromRecord(st.sold, st.puts, reqs, backpack, dir, put, entry, remaining);
        assert q == Running(SellState(st.left - 1, true, st.sold[entry.0 := entry.1 - remaining], st.puts + 1));
      }
    case NoSpace(tried) =>
      assert q == Done(Err(NotEnoughSpace(tried)));
      assert st.puts < n && entry in backpack && put(st.puts, entry.0, entry.1, dir) == NoSpace(tried);
    case OtherError =>
  }



  lemma SoldFromWeaken(sold: map<Kind, nat>, bound: nat, bound': nat, reqs: seq<Kind>, backpack: seq<(Kind, nat)>,
                       dir: Direction, put: PutOracle)
    requires SoldFrom(sold, bound, reqs, backpack, dir, put) && bound <= bound'
    ensures SoldFrom(sold, bound', reqs, backpack, dir, put)
  {
    forall k | k in sold
      ensures SoldBy(sold[k], k, bound', backpack, dir, put)
    {
      SoldByWeaken(sold[k], k, bound, bound', backpack, dir, put);
    }
  }

  lemma SoldByWeaken(amount: nat, k: Kind, bound: nat, bound': nat, backpack: seq<(Kind, nat)>, dir: Direction,
                     put: PutOracle)
    requires SoldBy(amount, k, bound, backpack, dir, put) && bound <= bound'
    ensures SoldBy(amount, k, bound', backpack, dir, put)
  {
    var i: nat, e :| && i < bound && e in backpack && e.0 == k
                     && put(i, e.0, e.1, dir).Accepted?
                     && amount == e.1 - put(i, e.0, e.1, dir).remaining;
  }

  /** Recording an accepted put of a requested backpack entry keeps `SoldFrom`
      with one more put. */
  lemma SoldFromRecord(sold: map<Kind, nat>, bound: nat, reqs: seq<Kind>, backpack: seq<(Kind, nat)>,
                       dir: Direction, put: PutOracle, entry: (Kind, nat), remaining: nat)
    requires SoldFrom(sold, bound, reqs, backpack, dir, put)
    requires Sellable(entry.0) && entry.0 in reqs && entry in backpack
    requires put(bound, entry.0, entry.1, dir) == Accepted(remaining) && remaining <= entry.1
    ensures SoldFrom(sold[entry.0 := entry.1 - remaining], bound + 1, reqs, backpack, dir, put)
  {
    var sold' := sold[entry.0 := entry.1 - remaining];
    assert |sold'| <= |sold| + 1;
    forall k | k in sold'
      ensures Sellable(k) && k in reqs && SoldBy(sold'[k], k, bound + 1, backpack, dir, put)
    {
      if k == entry.0 {
        var i: nat := bound;
        assert && i < bound + 1 && entry in backpack && entry.0 == k
               && put(i, entry.0, entry.1, dir).Accepted?
               && sold'[k] == entry.1 - put(i, entry.0, entry.1, dir).remaining;
      } else {
        assert sold'[k] == sold[k];
        SoldByWeaken(sold[k], k, bound, bound + 1, backpack, dir, put);
      }
    }
  }

  lemma {:induction false} VisitEntriesSound(p: Progress, n: nat, reqs: seq<Kind>, backpack: seq<(Kind, nat)>,
                                             req: Kind, b: nat, dir: Direction, put: PutOracle)
    requires Sound(p, n, reqs, backpack, dir, put)
    requires Sellable(req) && req in reqs && b <= |backpack|
    ensures Sound(VisitEntries(p, req, backpack[..b], dir, put), n, reqs, backpack, dir, put)
    decreases b
  {
    if b > 0 {
      assert backpack[..b][..b - 1] == backpack[..b - 1];
      VisitEntriesSound(p, n, reqs, backpack, req, b - 1, dir, put);
      VisitSound(VisitEntries(p, req, backpack[..b - 1], dir, put), n, reqs, backpack, req, backpack[b - 1], dir, put);
    }
  }

  lemma {:induction false} VisitRequestsSound(n: nat, reqs: seq<Kind>, a: nat, backpack: seq<(Kind, nat)>,
                                              dir: Direction, put: PutOracle)
    requires n >= 1 && a <= |reqs|
    ensures Sound(VisitRequests(Start(n), reqs[..a], backpack, dir, put), n, reqs, backpack, dir, put)
    decreases a
  {
    if a > 0 {
      assert reqs[..a][..a - 1] == reqs[..a - 1];
      VisitRequestsSound(n, reqs, a - 1, backpack, dir, put);
      if Sellable(reqs[a - 1]) {
        assert backpack[..|backpack|] == backpack;
        VisitEntriesSound(VisitRequests(Start(n), reqs[..a - 1], backpack, dir, put), n, reqs, backpack,
                          reqs[a - 1], |backpack|, dir, put);
      }
    }
  }

  /** Once a market with interactions is found, the tool never returns
      `OperationNotAllowed`, so the error branch for "nothing sold" inside the
      loop is unreachable. A sold map lists at most one kind per interaction,
      only sellable kinds the caller requested and the backpack held, never
      more than the backpack held; a lack of space is the world's reply to one
      of the puts. */
  lemma SellingSound(n: nat, dir: Direction, reqs: seq<Kind>, backpack: seq<(Kind, nat)>, put: PutOracle)
    requires n >= 1
    ensures Selling(n, dir, reqs, backpack, put) != Err(OperationNotAllowed)
    ensures Selling(n, dir, reqs, backpack, put).Ok? ==>
              SoldFrom(Selling(n, dir, reqs, backpack, put).sold, n, reqs, backpack, dir, put)
    ensures Selling(n, dir, reqs, backpack, put).Err? ==>
              exists i: nat, e :: i < n && e in backpack
                                && put(i, e.0, e.1, dir) == NoSpace(Selling(n, dir, reqs, backpack, put).error.tried)
  {
    VisitRequestsSound(n, reqs, |reqs|, backpack, dir, put);
    assert reqs[..|reqs|] == reqs;
  }

  /** The converse for a lack of space: when the loop, still running with
      interactions left, puts backpack entry `b` for request `a` and the world
      answers `NoSpace(t)`, the tool returns `NotEnoughSpace(t)` unchanged and
      nothing after it is tried. */
  lemma NoSpaceAborts(n: nat, dir: Direction, reqs: seq<Kind>, backpack: seq<(Kind, nat)>, put: PutOracle,
                      a: nat, b: nat, st: SellState, t: nat)
    requires a < |reqs| && b < |backpack| && Sellable(reqs[a])
    requires VisitEntries(VisitRequests(Start(n), reqs[..a], backpack, dir, put), reqs[a], backpack[..b], dir, put)
             == Running(st)
    requires st.left >= 1 && backpack[b].0 == reqs[a] && backpack[b].1 > 0
    requires put(st.puts, backpack[b].0, backpack[b].1, dir) == NoSpace(t)
    ensures Selling(n, dir, reqs, backpack, put) == Err(NotEnoughSpace(t))
  {
    var before := VisitRequests(Start(n), reqs[..a], backpack, dir, put);
    assert backpack[..b + 1][..b] == backpack[..b];
    assert VisitEntries(before, reqs[a], backpack[..b + 1], dir, put) == Done(Err(NotEnoughSpace(t)));
    Finish(Start(n), before, reqs, a, backpack, b, dir, put);
  }

  lemma {:induction false} VisitRequestsEmptyBackpack(p: Progress, reqs: seq<Kind>, dir: Direction, put: PutOracle)
    ensures VisitRequests(p, reqs, [], dir, put) == p
    decreases |reqs|
  {
    if reqs != [] {
      VisitRequestsEmptyBackpack(p, reqs[..|reqs| - 1], dir, put);
    }
  }

  /** With an empty backpack, a market with interactions buys nothing and the
      tool returns an empty map. */
  lemma SellingEmptyBackpack(n: nat, dir: Direction, reqs: seq<Kind>, put: PutOracle)
    ensures Selling(n, dir, reqs, [], put) == Ok(map[])
  {
    VisitRequestsEmptyBackpack(Start(n), reqs, dir, put);
  }

  /** The inner loop over `a + b` is the loop over `a` continued over `b`. */
  lemma {:induction false} VisitEntriesAppend(p: Progress, req: Kind, a: seq<(Kind, nat)>, b: seq<(Kind, nat)>,
                                              dir: Direction, put: PutOracle)
    ensures VisitEntries(p, req, a + b, dir, put) == VisitEntries(VisitEntries(p, req, a, dir, put), req, b, dir, put)
    decreases |b|
  {
    if b == [] {
      assert a + b == a;
    } else {
      assert (a + b)[..|a + b| - 1] == a + b[..|b| - 1];
      VisitEntriesAppend(p, req, a, b[..|b| - 1], dir, put);
    }
  }

  /** With interactions left, entries of other kinds change nothing. */
  lemma {:induction false} VisitEntriesSkip(st: SellState, req: Kind, entries: seq<(Kind, nat)>,
                                            dir: Direction, put: PutOracle)
    requires st.left >= 1
    requires forall i :: 0 <= i < |entries| ==> entries[i].0 != req
    ensures VisitEntries(Running(st), req, entries, dir, put) == Running(st)
    decreases |entries|
  {
    if entries != [] {
      VisitEntriesSkip(st, req, entries[..|entries| - 1], dir, put);
    }
  }

  /** With no interactions left, the first entry the loop reaches returns what
      was sold. */
  lemma {:induction false} VisitEntriesExhausted(st: SellState, req: Kind, entries: seq<(Kind, nat)>,
                                                 dir: Direction, put: PutOracle)
    requires st.left == 0 && st.soldAnything && entries != []
    ensures VisitEntries(Running(st), req, entries, dir, put) == Done(Ok(st.sold))
    decreases |entries|
  {
    if |entries| > 1 {
      VisitEntriesExhausted(st, req, entries[..|entries| - 1], dir, put);
    }
  }

  /** The scenario of the test that sells to a market with one interaction
      left: the robot stands with the market on its left, a tree above it and
      a rock below, asks for rocks and trees, and its backpack holds three
      rocks in one entry (and anything else of other kinds, in any order).
      The market is chosen, the rocks are sold in one `put`, and the tool then
      returns exactly `{Rock: 3}` instead of failing on the trees. */
  lemma SellRocksToLastInteraction(view: View, backpack: seq<(Kind, nat)>, r: nat, put: PutOracle)
    requires |view| == 3 && forall i :: 0 <= i < 3 ==> |view[i]| == 3
    requires view[1][0] == Some(Content(Market, 1))
    requires view[0][1] == Some(Content(Tree, 4)) && view[2][1] == Some(Content(Rock, 6))
    requires view[1][2] == None
    requires r < |backpack| && backpack[r] == (Rock, 3)
    requires forall i :: 0 <= i < |backpack| && i != r ==> backpack[i].0 != Rock
    requires put(0, Rock, 3, Left) == Accepted(0)
    ensures ChosenAt(view, (1, 0), 1, Left)
    ensures Selling(1, Left, [Rock, Tree], backpack, put) == Ok(map[Rock := 3])
  {
    LeftMarketChosen(view);
    var reqs := [Rock, Tree];
    var sold := SellState(0, true, map[Rock := 3], 1);
    var afterRocks := VisitEntries(Start(1), Rock, backpack, Left, put);
    RockEntrySold(backpack, r, put);
    assert reqs[..1] == [Rock] && [Rock][..0] == [];
    assert VisitRequests(Start(1), reqs[..1], backpack, Left, put) == afterRocks;
    if afterRocks.Running? {
      VisitEntriesExhausted(sold, Tree, backpack, Left, put);
    } else {
      VisitEntriesDone(Ok(map[Rock := 3]), Tree, backpack, Left, put);
    }
  }

  /** The view of that test: the market on the left is the choice. */
  lemma LeftMarketChosen(view: View)
    requires |view| == 3 && forall i :: 0 <= i < 3 ==> |view[i]| == 3
    requires view[1][0] == Some(Content(Market, 1))
    requires view[0][1] == Some(Content(Tree, 4)) && view[2][1] == Some(Content(Rock, 6))
    requires view[1][2] == None
    ensures ChosenAt(view, (1, 0), 1, Left)
  {
    forall i: nat, j: nat | i < |view| && j < |view[i]|
      ensures Offer(view, i, j) <= 1
      ensures Before((i, j), (1, 0)) ==> Offer(view, i, j) < 1
    {
    }
  }

  /** The backpack of that test: the one rock entry is sold whole in the
      first `put`, which uses up the last interaction. */
  lemma RockEntrySold(backpack: seq<(Kind, nat)>, r: nat, put: PutOracle)
    requires r < |backpack| && backpack[r] == (Rock, 3)
    requires forall i :: 0 <= i < |backpack| && i != r ==> backpack[i].0 != Rock
    requires put(0, Rock, 3, Left) == Accepted(0)
    ensures VisitEntries(Start(1), Rock, backpack, Left, put) == Running(SellState(0, true, map[Rock := 3], 1))
            || VisitEntries(Start(1), Rock, backpack, Left, put) == Done(Ok(map[Rock := 3]))
  {
    var sold := SellState(0, true, map[Rock := 3], 1);
    var head, tail := backpack[..r], backpack[r + 1..];
    assert backpack == head + [backpack[r]] + tail;
    VisitEntriesSkip(SellState(1, false, map[], 0), Rock, head, Left, put);
    VisitEntriesAppend(Start(1), Rock, head + [backpack[r]], tail, Left, put);
    VisitEntriesAppend(Start(1), Rock, head, [backpack[r]], Left, put);
    assert VisitEntries(Start(1), Rock, head + [backpack[r]], Left, put) == Running(sold);
    if tail != [] {
      VisitEntriesExhausted(sold, Rock, tail, Left, put);
    }
  }
}
