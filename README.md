# Exploring robot and market seller, modelled in Dafny

This project models two robots' logic from a robotics-simulation ecosystem.

**The exploring robot** (`MyRobot` of the `ai` crate). Each tick it:
- looks around and picks one intent (Discover, Wait or Explore);
- for Explore, senses a 21 x 21 window centred as close to itself as the 200 x 200 world allows, and updates the unconfirmed cells from its own map;
- runs a depth-first search from its own cell. A cell reached within a cost budget is scored for the route that reached it, and the search goes on past it only when that score at least matches the one already stored for the cell. It then takes the path stored for the first best-scoring cell in row-major order;
- walks that path. It moves, looks, and tries to destroy in every direction until the world refuses a move. After that it only asks to discover the coordinates the rest of the path traces.

**The market seller** (`SwiftSeller::swift_seller`). It:
- finds the orthogonally adjacent market with the most interactions left;
- sells the requested rocks, fish and trees from the backpack, one `put` per backpack entry, while interactions last.

Modules:

- `Geometry`: directions, coordinates, the replay of a direction sequence, row-major order.
- `Windowing`: `check_coords`, the clamp of the window centre.
- `Interpreter`: the intent choice.
- `PathSearch`: the search as a class.
  - The window is read-only. The visited and likeability matrices are `array2` fields, and the path stack is a field that the search pushes and pops.
  - Ghost functions state what a path earns: its cost, the count of unconfirmed cells it passed, and its score.
  - It also holds the best-path extraction.
- `Explorer`: reconciliation, the Explore executor, and the robot class with its tick.
- `SwiftSeller`: the market scan and the selling loop.
  - The selling loop is proved equal to a functional reference, `Selling`.
  - The lemmas about it are stated on that reference.

The world is not modelled. Whatever the world answers is a parameter:
- the sensed window;
- the robot's map;
- whether a tile type is walkable and what it costs in the current weather;
- whether the k-th move is accepted;
- the reply to each `put`.

The calls the robot makes into the world are returned as a log.

The proved properties include:
- Every recorded likeability entry was written by a walkable route from the robot's cell that reaches that cell within the cost budget, and its score is the one that route earns.
- A chosen plan has at most ten steps.
- At every step of a chosen plan, both the robot and the coordinate the executor traces stay inside the world. So none of the executor's unsigned coordinate updates can underflow.
- The executor's `go` calls are exactly the plan up to and including the first refused move.
- The seller never returns `OperationNotAllowed` once it has found a market with interactions. So the `Err(OperationNotAllowed)` branch inside its selling loop (`mirrors/swift_seller/src/lib.rs` line 113) is unreachable.

Two details of the code that are easy to get wrong:
- `check_coords` returns the window's centre, not its top-left corner. The search then offsets by the hard-coded 10.
- The uncovered-tiles counter starts at 1, not 0. With no cell confirmed, a four-step route earns 41 x its cell's distance from the centre (`PathSearch.Searcher.ScoreAllUncovered`), not 40 x. For example, 41 x 4 = 164 for a cell four steps from the centre. The entry stored for a cell can still be higher. A longer route to the same cell earns more, and it overwrites the stored entry because the comparison is `>=`.

## Model

| member | source | states |
|---|---|---|
| `Geometry.StepAdjacent` | mirrors/ai/src/lib.rs:101-104 | a step moves to an orthogonally adjacent cell: Manhattan distance one, exactly one axis changes, and Up and Down are the moves that change the row |
| `Geometry.ReplayPush` | mirrors/ai/src/lib.rs:317-329 | pushing a direction on the path moves the cell the path reaches one step in that direction |
| `Geometry.ReplayDistance` | mirrors/ai/src/lib.rs:242-283 | a path of k directions ends at most k cells (Manhattan) from where it starts, since each hop goes to an adjacent cell |
| `Geometry.ReplayShift` | mirrors/ai/src/lib.rs:174-175 | the same directions walked from two starting cells end displaced by exactly the difference of the starts (window-local and world coordinates agree) |
| `Geometry.Snapshot` | mirrors/ai/src/lib.rs:188-196 | a copy helper, not code of the source: the value of a matrix, same shape and cell by cell. It is the form in which `BestPath`'s scan, `PlanIsBest` and `Searched` read the likeability matrix, and in which the search reads the sensed window |
| `Windowing.ClampAxis` | mirrors/ai/src/lib.rs:206-217 | lifting a coordinate off the low edge and then lowering it off the high edge is the clamp of the coordinate to `[l/2, 199 - l/2]` |
| `Windowing.CheckCoords` | mirrors/ai/src/lib.rs:204-219 | the centre lies in `[l/2, 199 - l/2]` on both axes, so the whole window lies in the world; a coordinate that already allows this is unchanged; the robot lies inside the window |
| `Interpreter.Interpret` | mirrors/ai/src/lib.rs:396-414 | exactly one intent; Discover iff `ticks == 0`; Wait iff `ticks != 0` and energy below 200; Explore iff `ticks != 0` and energy at least 200 |
| `PathSearch.Searcher.constructor` | mirrors/ai/src/lib.rs:171-173 | nothing visited, every entry `(0, [])`, empty path, and every entry recorded |
| `PathSearch.Searcher.Neighbour` | mirrors/ai/src/lib.rs:242-283 | the neighbour exists exactly when the adjacent cell in that direction lies in the window, and is that cell |
| `PathSearch.Searcher.DistanceBounds` | mirrors/ai/src/lib.rs:298-306 | the distance from the window's centre cell is zero exactly at the centre and at most `2 (n / 2)` inside the window |
| `PathSearch.Searcher.ArrivalCost` | mirrors/ai/src/lib.rs:285-349 | the cost the search carries into a cell is zero exactly for the start, since every hop adds 5 on the first call or 20 plus the tile's cost after it |
| `PathSearch.Searcher.Uncovered` | mirrors/ai/src/lib.rs:293-349 | the uncovered-tiles counter carried into a cell is never below its starting value 1 |
| `PathSearch.Searcher.UTile` | mirrors/ai/src/lib.rs:293-296 | counting the reached cell adds nothing or the bonus of 10 (for an unconfirmed cell) to the carried counter |
| `PathSearch.Searcher.PathFinder` | mirrors/ai/src/lib.rs:221-359 | restores the path and the visited matrix; never lowers a score; leaves the entries of cells visited before the call, and on the first call the start's own entry, unchanged; changes nothing from a non-walkable cell; keeps every entry recorded (untouched, or written by a walkable route from the origin reaching that cell under the budget, with that route's score); the pruning rule: a later call whose path is over the budget or earns less than the cell's stored score changes no entry at all; the expansion rule: a later call on a walkable cell whose path is under the budget and earns at least the stored score stores exactly (that score, that path) for the cell, and then, like the first call, leaves every walkable neighbour not visited before and reached under the budget scoring at least what the path extended by that direction earns |
| `PathSearch.Searcher.TryDirections` | mirrors/ai/src/lib.rs:233-357 | the loop over the four directions at a walkable, marked cell (the body keeps the source's order Up, Right, Down, Left, which decides which of two equal-scoring paths is stored; the contract does not fix that order): the frame, monotonicity and recording of `TryDirection`, the pruning rule (a non-improving later call changes no entry), the stored entry of an improving later call, and the neighbour lower bound for all four directions on the first call or an improving later call |
| `PathSearch.Searcher.TryDirection` | mirrors/ai/src/lib.rs:240-356 | one direction of the loop: the same frame and monotonicity, every entry stays recorded, only the current cell's entry may change among visited cells; on a later call the current cell ends scoring at least its path's score when that path is under the budget; a later call that does not improve on the stored score (or is over the budget) changes no entry; an improving later call stores exactly (its score, its path) for the current cell; on the first call or an improving later call, the neighbour in that direction, when walkable, not visited and reached under the budget, ends scoring at least what the path extended by that direction earns |
| `PathSearch.Searcher.Record` | mirrors/ai/src/lib.rs:308-309 | overwrites exactly one entry, with a recorded entry scoring at least the stored one, and keeps every entry recorded |
| `PathSearch.Searcher.Descend` | mirrors/ai/src/lib.rs:317-329 | push, search from the neighbour, pop: the path and visited matrix are restored, entries of visited cells are unchanged, every entry stays recorded, and the neighbour's entry scores at least what the extended path earns when that path is under the budget |
| `PathSearch.Searcher.RouteStartsWalkable` | mirrors/ai/src/lib.rs:239 | a route starts on a walkable cell |
| `PathSearch.Searcher.NonWalkableOriginUnscored` | mirrors/ai/src/lib.rs:239-358 | when the origin is not walkable every recorded entry is `(0, [])` |
| `PathSearch.Searcher.RoutePrefix` | mirrors/ai/src/lib.rs:310-329 | every prefix of a route is a route, so every cell it passes is in the window and walkable |
| `PathSearch.Searcher.ArrivalCostGrows` | mirrors/ai/src/lib.rs:291-349 | a path of k steps arrives with cost at least `5 + 20 (k - 1)` |
| `PathSearch.Searcher.RecordedDepth` | mirrors/ai/src/lib.rs:292 | the budget of 200 bounds every recorded path to at most ten steps |
| `PathSearch.Searcher.UncoveredBounds` | mirrors/ai/src/lib.rs:293-349 | the counter carried into the cell a k-step path reaches (k at least 1) lies in `[1, 1 + 10 (k - 1)]` |
| `PathSearch.Searcher.ScoreAllUncovered` | mirrors/ai/src/lib.rs:293-307 | with no cell confirmed, the cell a k-step route reaches scores `(1 + 10 k)` times its distance from the centre |
| `PathSearch.Searcher.ScoreBounds` | mirrors/ai/src/lib.rs:298-307 | a route's score is at least its cell's distance from the centre (the counter is at least one), and the centre cell scores zero |
| `PathSearch.Searcher.RecordedScoreBounds` | mirrors/ai/src/lib.rs:298-307 | a recorded score lies between 0 and `(1 + 10 k)` times the cell's distance from the centre, k being the length of the recorded path |
| `PathSearch.BestPath` | mirrors/ai/src/lib.rs:187-200 | the returned maximum is non-negative and no score exceeds it; zero gives the empty path; otherwise the path is that of a cell with the maximum score and every earlier cell in row-major order scores strictly less |
| `PathSearch.SearchWindow` | mirrors/ai/src/lib.rs:171-200 | fresh matrices, search from the origin, extraction; returns the searched matrix, in which every entry is recorded and, from a walkable origin, every walkable neighbour reached under the budget scores at least its one-step route (`Searched`); the plan is the best (`PlanIsBest`): empty only when no entry scores above zero, otherwise the stored path of a cell holding the highest score, with every cell before it in row-major order scoring strictly less; at most ten steps; empty from a non-walkable origin; otherwise a walkable route under the budget reaching that cell |
| `PathSearch.RunSearch` | mirrors/ai/src/lib.rs:171-185 | fresh matrices over the window and the first call of the search from the origin with cost 0 and counter 1; the result satisfies `Searched` on the snapshot of its likeability matrix |
| `PathSearch.SearchedSnapshot` | mirrors/ai/src/lib.rs:171-185 | what the first call leaves behind (path empty, nothing visited, every entry recorded, the one-step lower bound on walkable neighbours) is `Searched` on the matrix's snapshot |
| `PathSearch.SearchedPlanNonEmpty` | mirrors/ai/src/lib.rs:171-200 | when the origin and one of its neighbours are walkable and the one-step route to the neighbour is under the budget with a positive score, the plan is not empty |
| `Explorer.Reconciled` | mirrors/ai/src/lib.rs:158-170 | an unconfirmed cell the robot's map knows takes the map's tile type and becomes confirmed; every other cell is unchanged; the coordinate never changes |
| `Explorer.ReconciledIdempotent` | mirrors/ai/src/lib.rs:158-170 | reconciling twice is reconciling once |
| `Explorer.Reconcile` | mirrors/ai/src/lib.rs:158-170 | every cell of the window is replaced by its reconciled cell |
| `Explorer.FirstFailure` | mirrors/ai/src/lib.rs:109-112 | the count of moves accepted before the first refused one: all earlier moves accepted, the one at that index refused (when there is one) |
| `Explorer.StepCalls` | mirrors/ai/src/lib.rs:108-116 | the calls of one step taken: six calls, the first a `go` in that direction, none of the others a `go` |
| `Explorer.MoveCalls` | mirrors/ai/src/lib.rs:108-116 | six calls per step taken |
| `Explorer.DiscoverRange` | mirrors/ai/src/lib.rs:106-107 | one discovery request per step after the refused move |
| `Explorer.ExecutePlan` | mirrors/ai/src/lib.rs:92-119 | the traced coordinate is the end of the whole plan; blocked iff some move is refused; the robot ends at the end of the accepted prefix; the call log is the full step calls up to and including the first refused move, then one discovery per remaining step |
| `Explorer.GoDirectionsOfMoves` | mirrors/ai/src/lib.rs:109-116 | the `go` calls of the steps taken are exactly those steps' directions |
| `Explorer.NoGoInDiscoveries` | mirrors/ai/src/lib.rs:106-107 | after a refusal the executor issues no `go` |
| `Explorer.ExploreGoes` | mirrors/ai/src/lib.rs:99-118 | the `go` calls of the whole log are the plan up to and including the first refused move |
| `Explorer.DiscoverRangeAt` | mirrors/ai/src/lib.rs:100-107 | the k-th of those requests is on the coordinate the plan traces after step k |
| `Explorer.PlanLands` | mirrors/ai/src/lib.rs:174-175 | a plan from the robot's window-local cell ends, in world coordinates, on the window cell's global coordinate |
| `Explorer.PlanInWorld` | mirrors/ai/src/lib.rs:140-201 | a chosen plan ends on the global coordinate of the cell it reaches, and every prefix of it stays inside the world |
| `Explorer.WindowOrigin` | mirrors/ai/src/lib.rs:174-175 | the robot's window-local cell, its offset from the clamped centre plus 10, lies inside the 21 x 21 window, so the casts to `usize` cannot wrap |
| `Explorer.ReconcileAround` | mirrors/ai/src/lib.rs:150-170 | reconciles every cell of the sensed window in place and returns the window as searched, still centred on the clamped centre |
| `Explorer.MyRobot.constructor` | mirrors/ai/src/lib.rs:132-138 | a new robot starts at tick 0 |
| `Explorer.MyRobot.Centre` | mirrors/ai/src/lib.rs:146-150 | the clamped centre keeps the whole window inside the world, and the robot is within 10 cells of it on both axes |
| `Explorer.MyRobot.GetTileToMoveTowards` | mirrors/ai/src/lib.rs:140-201 | reconciles the sensed window; the plan is the one the search chooses on that window from the robot's window-local cell (`SearchChose`: every entry of the searched matrix recorded, the plan best in it); at most ten steps; empty from a non-walkable cell; otherwise a walkable route under the budget to the best cell that ends on that cell's global coordinate and keeps every prefix inside the world |
| `Explorer.MyRobot.Walk` | mirrors/ai/src/lib.rs:92-119 | runs the executor on the plan: the robot ends at the end of the accepted prefix, inside the world, and the calls are the full step calls up to the first refused move, then one discovery per remaining step |
| `Explorer.MyRobot.RunExplore` | mirrors/ai/src/lib.rs:92-119 | senses the window at the clamped centre, reconciles it, chooses the plan as the search does on it (`SearchChose`), walks it: the log is the sense followed by the executor's calls; the robot ends at the end of the accepted prefix of the plan, at most ten steps, inside the world |
| `Explorer.MyRobot.ProcessTick` | mirrors/ai/src/lib.rs:67-128 | counts the tick; Discover logs a view and a 41-square sense, Wait a view and a spin, both without moving and without touching the window; Explore logs a view, the window sense and the executor's calls, reconciles the window, and moves the robot along the accepted prefix of the plan the search chose on it (`SearchChose`), at most ten steps, inside the world |
| `SwiftSeller.ScanForMarket` | mirrors/swift_seller/src/lib.rs:43-81 | a market is near iff some adjacent cell offers interactions; then the interactions are the largest offer and the direction leads to the first cell offering it; otherwise zero and `Left` |
| `SwiftSeller.ScanCell` | mirrors/swift_seller/src/lib.rs:51-75 | one cell of the scan beats the current choice iff it is an adjacent market offering more than the current highest count; then the count is its offer and the direction leads to it |
| `SwiftSeller.ChosenUnique` | mirrors/swift_seller/src/lib.rs:49-81 | the chosen market is unique: largest offer, first in scan order on a tie |
| `SwiftSeller.Visit` | mirrors/swift_seller/src/lib.rs:107-138 | a returned loop stays returned; a round that keeps running used one interaction for each new `put` |
| `SwiftSeller.VisitEntries` | mirrors/swift_seller/src/lib.rs:106-138 | the same over every backpack entry for one request |
| `SwiftSeller.VisitRequests` | mirrors/swift_seller/src/lib.rs:102-143 | the same over every request |
| `SwiftSeller.SellToMarket` | mirrors/swift_seller/src/lib.rs:35-146 | no adjacent market with interactions gives `OperationNotAllowed`; otherwise the outcome is the selling loop's for the chosen market |
| `SwiftSeller.SellEntries` | mirrors/swift_seller/src/lib.rs:107-138 | the backpack loop for one sellable request ends, from any loop state, as the reference `VisitEntries` says: a return with its outcome, or the loop state to carry on with |
| `SwiftSeller.SellEntry` | mirrors/swift_seller/src/lib.rs:108-137 | one round of the backpack loop is the reference `Visit`: with no interactions left the tool returns what it sold (or `OperationNotAllowed` if nothing), a matching positive entry is put in full, an accepted put records the quantity sold and uses one interaction, and any refusal returns |
| `SwiftSeller.VisitSound` | mirrors/swift_seller/src/lib.rs:109-138 | one round of the selling loop keeps its invariant: each interaction used is one `put`, a return is never the "nothing sold" error, the sold map only grows by a requested sellable backpack kind |
| `SwiftSeller.SellingSound` | mirrors/swift_seller/src/lib.rs:101-145 | with interactions, the loop never returns `OperationNotAllowed`; a sold map has at most one kind per interaction and only sellable requested kinds, and the figure recorded for a kind is a backpack entry's quantity less the remaining figure of an accepted `put` of it; a `NotEnoughSpace` is the reply to one of the puts |
| `SwiftSeller.NoSpaceAborts` | mirrors/swift_seller/src/lib.rs:115-131 | the converse: a `NoSpace(t)` reply to a `put` made while interactions are left makes the tool return `NotEnoughSpace(t)`, and nothing after it is tried |
| `SwiftSeller.SellingEmptyBackpack` | mirrors/swift_seller/src/lib.rs:380-389 | an empty backpack sells nothing and returns an empty map |
| `SwiftSeller.SellRocksToLastInteraction` | mirrors/swift_seller/src/lib.rs:619-655 | in the test's world, seen from the robot's cell: the market with one interaction on the left, `Tree(4)` above, `Rock(6)` below and the world's edge on the right; asked for rocks and trees, with three rocks as the backpack's only rock entry, the tool chooses that market and returns exactly the three rocks, in any backpack order |
| `SwiftSeller.LeftMarketChosen` | mirrors/swift_seller/src/lib.rs:619-655 | in the view of that test the scan chooses the market on the left with its one interaction |
| `SwiftSeller.RockEntrySold` | mirrors/swift_seller/src/lib.rs:619-655 | in the backpack of that test the one rock entry is sold whole in the first `put`, which uses up the last interaction |

## Left out

- The world: sensing, the robot's map, the weather, `go`, `destroy`, `discover_tiles`, `robot_view`, `put` and `lucky_spin`. Their answers are parameters.
- The exploring robot's calls to `go`, `destroy`, `discover_tiles`, `robot_view`, the two sensing calls and `lucky_spin` are logged (`Explorer.Call`).
- The reads of the robot's map (`robot_map`) and of the weather (`look_at_sky`) are parameters only. No contract records that they happen: the map is the `KnownMap` parameter, and the weather is folded into `tileCost`.
- The seller's `robot_view` and `put` calls are not logged either: the view is a parameter and `put` is an oracle.
- Energy, backpack contents, coins and tile contents inside the world are not modelled.
- Walkability and cost: tile-type walkability and cost (including `calculate_cost_go_with_environment`) are oracle parameters. The weather is folded into the cost.
- The sense tools' `granularity` argument is not modelled.
- `send_game_info`, `handle_event` and the GUI channel: display only.
- `Variables` fields other than energy and ticks (inventory, map, weather, cities) are never read by the interpreter and are not modelled.
- Integer widths: the model uses unbounded integers. The relative coordinates cast to `usize` are proved to lie in the window, so the casts cannot wrap.
- `MyRobot.ProcessTick`: does not model the `i32` overflow of `ticks` after 2^31 ticks.
- Window size: only the 21 x 21 window is modelled, because the code hard-codes the offset 10.
- Tiles: a window cell carries only its coordinate, tile type and confirmed flag. Tile content and elevation are not modelled.
- `unwrap` of the sense result and of the robot's map is taken to succeed.
- The sense tool is taken to return a 21 x 21 grid in which cell (i, j) holds the global coordinate (c.0 - 10 + i, c.1 - 10 + j), c being the centre asked for (`Explorer.SensedAround`). The claim that a plan ends on its cell's global coordinate depends on this.
- Hash map iteration order: the order in which the seller sees its backpack is a parameter, a sequence of (kind, quantity) entries.
- Seller contents are compared by kind only.
- `SwiftSeller.SellToMarket`: the two early checks (no market near; no interactions left) are one test, since both return `OperationNotAllowed`.
- The seller's `_ => return Err(...)` arm of the direction match cannot be reached and has no branch in the model.
- The seller's panics (an unexpected `put` error, or a remaining quantity above the one offered) are the `Panic` outcome.
- The remaining quantity after a `put` is the `put` reply's own figure. A missing backpack key, which would panic in `unwrap`, is not modelled.
- `PathSearch.Searcher.TryDirections`: the contract does not fix the order in which the four directions are tried. The body keeps the source's order, which decides which of two equal-scoring routes a cell ends up storing; no property here depends on it.
- GetResources and AsfaltInator are never chosen, and they do nothing.
