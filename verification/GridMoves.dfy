/**
  What one action, one step and one addition do in simulation-environments/grid-world.environment.ts, cell by
  cell and in coordinates.
*/
module GridMoves {
  import opened Wrappers
  import opened GridWorld

  // ---------------------------------------------------------------- one action

  /** Up is towards row zero, left towards column zero; at an edge an agent stays where it is. */
  function Heading(w: World, p: Pos, action: Action): Pos {
    match action
    case Up => if p.y > 0 then Pos(p.x, p.y - 1) else p
    case Down => if p.y + 1 < w.height then Pos(p.x, p.y + 1) else p
    case Left => if p.x > 0 then Pos(p.x - 1, p.y) else p
    case Right => if p.x + 1 < w.width then Pos(p.x + 1, p.y) else p
    case Collect => p
  }

  /** Position p of the world holds this. */
  ghost predicate Holds(w: World, p: Pos, kind: Kind, agentId: Option<nat>, resourceValue: Option<int>) {
    On(w.grid, p) && w.grid[p.y][p.x] == Cell(kind, agentId, resourceValue)
  }

  lemma HeadingIs(w: World, p: Pos, action: Action)
    requires Shape(w) && On(w.grid, p)
    ensures Target(w, p, action) == Heading(w, p, action) && On(w.grid, Heading(w, p, action))
  {
  }

  /**
    A move leads one cell up, down, left or right, or nowhere at an edge. Onto an obstacle nothing happens;
    otherwise the agent is there, its new cell says so whatever it held, its old one is empty, and nothing else changes.
  */
  lemma MoveIs(w: World, id: nat, action: Action)
    requires Shape(w) && id in w.agents && action != Collect
    ensures var from, to, after := w.agents[id].at, Heading(w, w.agents[id].at, action), Act(w, id, action);
      && On(w.grid, to) && On(w.grid, from)
      && (w.grid[to.y][to.x].kind == Obstacle ==> after == w)
      && (w.grid[to.y][to.x].kind != Obstacle ==>
            && after.agents == w.agents[id := Agent(to, w.agents[id].collected)] && after.collected == w.collected
            && Holds(after, to, Occupied, Some(id), w.grid[to.y][to.x].resourceValue)
            && (from != to ==> Holds(after, from, Empty, None, w.grid[from.y][from.x].resourceValue))
            && (forall p :: On(w.grid, p) && p != from && p != to ==> On(after.grid, p) && After(after, p) == After(w, p)))
  {
    hide Shape;
    AgentOn(w, id);
    HeadingIs(w, w.agents[id].at, action);
    MovedIs(w, id, Heading(w, w.agents[id].at, action));
  }

  function After(w: World, p: Pos): Cell
    requires On(w.grid, p)
  {
    w.grid[p.y][p.x]
  }

  lemma MovedIs(w: World, id: nat, to: Pos)
    requires Shape(w) && id in w.agents && On(w.grid, to) && On(w.grid, w.agents[id].at)
    ensures var from, after := w.agents[id].at, Moved(w, id, to);
      && after.agents == w.agents[id := Agent(to, w.agents[id].collected)] && after.collected == w.collected
      && Holds(after, to, Occupied, Some(id), w.grid[to.y][to.x].resourceValue)
      && (from != to ==> Holds(after, from, Empty, None, w.grid[from.y][from.x].resourceValue))
      && (forall p :: On(w.grid, p) && p != from && p != to ==> On(after.grid, p) && After(after, p) == After(w, p))
  {
    hide Shape;
  }

  /**
    Collecting works on a resource alone: the agent and the world score its value, or one if it has none or
    zero, and the cell is empty. Anywhere else nothing happens.
  */
  lemma CollectIs(w: World, id: nat)
    requires Shape(w) && id in w.agents
    ensures var at, after := w.agents[id].at, Act(w, id, Collect);
      && On(w.grid, at)
      && (w.grid[at.y][at.x].kind != Resource ==> after == w)
      && (w.grid[at.y][at.x].kind == Resource ==>
            var v := w.grid[at.y][at.x].resourceValue;
            var gain := if v == None || v == Some(0) then 1 else v.value;
            && after.agents == w.agents[id := Agent(at, w.agents[id].collected + gain)]
            && after.collected == w.collected + gain
            && Holds(after, at, Empty, w.grid[at.y][at.x].agentId, None)
            && (forall p :: On(w.grid, p) && p != at ==> On(after.grid, p) && After(after, p) == After(w, p)))
  {
    hide Shape, Put, Collected, Moved;
    AgentOn(w, id);
    CollectedIs(w, id);
  }

  lemma CollectedIs(w: World, id: nat)
    requires Shape(w) && id in w.agents && On(w.grid, w.agents[id].at)
    ensures var at, after := w.agents[id].at, Collected(w, id);
      var v := w.grid[at.y][at.x].resourceValue;
      var gain := if v == None || v == Some(0) then 1 else v.value;
      && after.agents == w.agents[id := Agent(at, w.agents[id].collected + gain)]
      && after.collected == w.collected + gain
      && Holds(after, at, Empty, w.grid[at.y][at.x].agentId, None)
      && (forall p :: On(w.grid, p) && p != at ==> On(after.grid, p) && After(after, p) == After(w, p))
  {
    hide Shape, Put;
  }

  /** An action succeeds if it is a move that no obstacle blocks, or collects a resource. */
  lemma SuccessIs(w: World, id: nat, action: Action)
    requires Shape(w) && id in w.agents
    ensures var at, to := w.agents[id].at, Heading(w, w.agents[id].at, action);
      && On(w.grid, at) && On(w.grid, to)
      && (Succeeds(w, id, action) <==>
            if action == Collect then w.grid[at.y][at.x].kind == Resource else w.grid[to.y][to.x].kind != Obstacle)
  {
    AgentOn(w, id);
    HeadingIs(w, w.agents[id].at, action);
  }

  // ---------------------------------------------------------------- one step

  /** The agents from the i-th on act one after the other, each on what the one before left. */
  function ActFrom(w: World, i: nat, actions: nat -> Action): (after: World)
    requires Shape(w) && i <= |w.order|
    ensures Shape(after) && after.steps == w.steps
    decreases |w.order| - i
  {
    if i == |w.order| then w else ActFrom(Act(w, w.order[i], actions(i)), i + 1, actions)
  }

  lemma {:induction false} ActAllIs(w: World, n: nat, actions: nat -> Action)
    requires Shape(w) && n <= |w.order|
    ensures ActFrom(ActAll(w, n, actions), n, actions) == ActFrom(w, 0, actions)
    decreases n
  {
    hide Act, Shape;
    if n > 0 {
      ActAllIs(w, n - 1, actions);
    }
  }

  function Ticked(w: World): (after: World)
    requires Shape(w)
    ensures Shape(after) && after == w.(steps := w.steps + 1)
  {
    w.(steps := w.steps + 1)
  }

  /** A step counts itself and, unless the world is paused, lets every agent act in turn, the k-th as drawn for it. */
  lemma StepIs(w: World, paused: bool, actions: nat -> Action)
    requires Shape(w)
    ensures StepWorld(w, paused, actions) == if paused then Ticked(w) else ActFrom(Ticked(w), 0, actions)
  {
    hide Act, Shape;
    if !paused {
      ActAllIs(Ticked(w), |w.order|, actions);
    }
  }

  /** A world goes on while some cell is a resource and fewer than a thousand steps have been made. */
  lemma GoesOnIs(w: World)
    ensures Continues(w) <==> w.steps < 1000 && exists p :: On(w.grid, p) && w.grid[p.y][p.x].kind == Resource
  {
    if HasResources(w) {
      var y, x :| 0 <= y < |w.grid| && 0 <= x < |w.grid[y]| && w.grid[y][x].kind == Resource;
      assert On(w.grid, Pos(x, y)) && w.grid[Pos(x, y).y][Pos(x, y).x].kind == Resource;
    }
  }

  // ---------------------------------------------------------------- a whole run

  /** In step s the agent at place k of the order takes the action drawn for s and k. */
  lemma DrawnIs(outside: Outside, s: nat, k: nat)
    ensures Drawn(outside, s)(k) == outside.actions(s, k)
  {
  }

  /** The world n steps later when nothing stops it. */
  function Played(w: World, n: nat, outside: Outside): (after: World)
    requires Shape(w)
    ensures Shape(after) && after.steps == w.steps + n
  {
    if n == 0 then w else NextWorld(Played(w, n - 1, outside), outside)
  }

  function NextWorld(w: World, outside: Outside): (after: World)
    requires Shape(w)
    ensures Shape(after) && after.steps == w.steps + 1
  {
    ActFrom(Ticked(w), 0, Drawn(outside, w.steps + 1))
  }

  /** After a step a run carries on: resources are left, it is not step 1000, time is not up and nobody paused it. */
  ghost predicate CarriesOn(w: World, outside: Outside) {
    && w.steps < 1000 && !outside.timeUp(w.steps) && !outside.pause(w.steps)
    && exists p :: On(w.grid, p) && w.grid[p.y][p.x].kind == Resource
  }

  lemma NextIs(w: World, outside: Outside)
    requires Shape(w)
    ensures StepWorld(w, false, Drawn(outside, w.steps + 1)) == NextWorld(w, outside)
    ensures !Ends(NextWorld(w, outside), outside) <==> CarriesOn(NextWorld(w, outside), outside)
  {
    hide Shape, StepWorld, ActFrom, Continues, HasResources, On;
    StepIs(w, false, Drawn(outside, w.steps + 1));
    GoesOnIs(NextWorld(w, outside));
  }

  lemma {:induction false} PlayedOn(w: World, n: nat, outside: Outside)
    requires Shape(w) && n > 0
    ensures Played(w, n, outside) == Played(NextWorld(w, outside), n - 1, outside)
  {
    hide Shape, NextWorld;
    if n > 1 {
      PlayedOn(w, n - 1, outside);
    }
  }

  /** The steps a run may make: as many as configured, and a thousand when that is none. */
  function Bound(maxSteps: int): int { if maxSteps != 0 then maxSteps else 1000 }

  /** A run makes steps until it has as many as it may or does not carry on after one, and not one step more. */
  lemma RunIs(w: World, maxSteps: int, outside: Outside) returns (n: nat)
    requires Shape(w)
    ensures RunFrom(w, Limit(maxSteps), outside) == Played(w, n, outside)
    ensures forall k: nat :: k < n ==> w.steps + k < Bound(maxSteps) && (k > 0 ==> CarriesOn(Played(w, k, outside), outside))
    ensures w.steps + n >= Bound(maxSteps) || (n > 0 && !CarriesOn(Played(w, n, outside), outside))
  {
    n := RunUpTo(w, Bound(maxSteps), outside);
  }

  lemma {:induction false} RunUpTo(w: World, limit: int, outside: Outside) returns (n: nat)
    requires Shape(w)
    ensures RunFrom(w, limit, outside) == Played(w, n, outside)
    ensures forall k: nat :: k < n ==> w.steps + k < limit && (k > 0 ==> CarriesOn(Played(w, k, outside), outside))
    ensures w.steps + n >= limit || (n > 0 && !CarriesOn(Played(w, n, outside), outside))
    decreases limit - w.steps
  {
    hide Shape, StepWorld, NextWorld, Ends, CarriesOn;
    if w.steps >= limit {
      n := 0;
    } else {
      NextIs(w, outside);
      var next := NextWorld(w, outside);
      PlayedOn(w, 1, outside);
      if CarriesOn(next, outside) {
        var m := RunUpTo(next, limit, outside);
        n := m + 1;
        forall k: nat | 0 < k <= n ensures Played(w, k, outside) == Played(next, k - 1, outside) {
          PlayedOn(w, k, outside);
        }
      } else {
        n := 1;
      }
    }
  }

  // ---------------------------------------------------------------- one addition

  /** The spot is on the grid and taken. */
  predicate Taken(w: World, p: Pos) { On(w.grid, p) && w.grid[p.y][p.x].kind != Empty }

  /**
    An addition tries its spots in turn. The first that is not taken decides: if it is off the grid the addition
    throws, otherwise the agent is settled there with nothing collected, its cell says so, and nothing else changes.
    With every spot taken it goes on drawing.
  */
  lemma {:induction false} PlaceIs(w: World, id: nat, spots: seq<Pos>, k: nat)
    requires Shape(w) && k <= |spots| && forall j :: 0 <= j < k ==> Taken(w, spots[j])
    ensures k == |spots| ==> Place(w, id, spots) == Spinning
    ensures k < |spots| && !On(w.grid, spots[k]) ==> Place(w, id, spots) == Threw
    ensures k < |spots| && On(w.grid, spots[k]) && !Taken(w, spots[k]) ==>
      && Place(w, id, spots).Placed?
      && var after, p := Place(w, id, spots).world, spots[k];
      && after.agents == w.agents[id := Agent(p, 0)]
      && after.order == (if id in w.agents then w.order else w.order + [id])
      && after.collected == w.collected && after.steps == w.steps
      && Holds(after, p, Occupied, Some(id), w.grid[p.y][p.x].resourceValue)
      && (forall q :: On(w.grid, q) && q != p ==> On(after.grid, q) && After(after, q) == After(w, q))
    decreases k
  {
    hide Shape, Put;
    if k > 0 {
      PlaceIs(w, id, spots[1..], k - 1);
    } else if spots != [] && On(w.grid, spots[0]) && !Taken(w, spots[0]) {
      SettledIs(w, id, spots[0]);
    }
  }

  lemma SettledIs(w: World, id: nat, p: Pos)
    requires Shape(w) && On(w.grid, p)
    ensures var after := Settled(w, id, p);
      && after.agents == w.agents[id := Agent(p, 0)]
      && after.order == (if id in w.agents then w.order else w.order + [id])
      && after.collected == w.collected && after.steps == w.steps
      && Holds(after, p, Occupied, Some(id), w.grid[p.y][p.x].resourceValue)
      && (forall q :: On(w.grid, q) && q != p ==> On(after.grid, q) && After(after, q) == After(w, q))
  {
    hide Shape;
  }
}
