/**
  The grid world of simulation-environments/grid-world.environment.ts.

  The drawn actions, the drawn starting cells and what happens between two steps of a run (a pause, the
  time limit) are inputs. Agents are visited in the order in which their ids were first added.
*/
module GridWorld {
  import opened Wrappers

  datatype Kind = Empty | Obstacle | Resource | Occupied

  datatype Cell = Cell(kind: Kind, agentId: Option<nat>, resourceValue: Option<int>)

  datatype Pos = Pos(x: int, y: int)

  datatype Agent = Agent(at: Pos, collected: int)

  datatype Action = Up | Down | Left | Right | Collect

  datatype World = World(
    width: int, height: int, grid: seq<seq<Cell>>,
    agents: map<nat, Agent>, order: seq<nat>, collected: int, steps: nat)

  // ---------------------------------------------------------------- the grid

  ghost predicate Rectangle(grid: seq<seq<Cell>>, width: int, height: int) {
    |grid| == height && forall y :: 0 <= y < height ==> |grid[y]| == width
  }

  predicate On(grid: seq<seq<Cell>>, p: Pos) {
    0 <= p.y < |grid| && 0 <= p.x < |grid[p.y]|
  }

  function At(grid: seq<seq<Cell>>, p: Pos): Cell
    requires On(grid, p)
  {
    grid[p.y][p.x]
  }

  function Put(grid: seq<seq<Cell>>, p: Pos, c: Cell): (after: seq<seq<Cell>>)
    requires On(grid, p)
    ensures |after| == |grid| && forall y :: 0 <= y < |grid| ==> |after[y]| == |grid[y]|
    ensures forall q :: On(grid, q) ==> On(after, q) && At(after, q) == if q == p then c else At(grid, q)
  {
    grid[p.y := grid[p.y][p.x := c]]
  }

  ghost predicate Distinct(ids: seq<nat>) {
    forall i, k :: 0 <= i < k < |ids| ==> ids[i] != ids[k]
  }

  /** A rectangular grid with every agent inside it, and each agent once in the visiting order. */
  ghost predicate Shape(w: World) {
    && w.width > 0 && w.height > 0 && Rectangle(w.grid, w.width, w.height)
    && (forall id :: id in w.agents ==> On(w.grid, w.agents[id].at))
    && (forall id :: id in w.order <==> id in w.agents)
    && Distinct(w.order)
  }

  function CellOf(w: World, id: nat): Cell
    requires Shape(w) && id in w.agents
  {
    At(w.grid, w.agents[id].at)
  }

  // ---------------------------------------------------------------- what an agent does

  function Target(w: World, p: Pos, action: Action): Pos {
    match action
    case Up => Pos(p.x, Max(0, p.y - 1))
    case Down => Pos(p.x, Min(w.height - 1, p.y + 1))
    case Left => Pos(Max(0, p.x - 1), p.y)
    case Right => Pos(Min(w.width - 1, p.x + 1), p.y)
    case Collect => p
  }

  /** `cell.resourceValue || 1` */
  function Gain(c: Cell): int {
    match c.resourceValue
    case Some(v) => if v == 0 then 1 else v
    case None => 1
  }

  predicate Succeeds(w: World, id: nat, action: Action)
    requires Shape(w) && id in w.agents
  {
    if action == Collect then CellOf(w, id).kind == Resource
    else At(w.grid, Target(w, w.agents[id].at, action)).kind != Obstacle
  }

  function Moved(w: World, id: nat, to: Pos): (after: World)
    requires Shape(w) && id in w.agents && On(w.grid, to)
    ensures Shape(after)
  {
    var from := w.agents[id].at;
    var left := Put(w.grid, from, At(w.grid, from).(kind := Empty, agentId := None));
    var entered := Put(left, to, At(left, to).(kind := Occupied, agentId := Some(id)));
    w.(grid := entered, agents := w.agents[id := w.agents[id].(at := to)])
  }

  function Collected(w: World, id: nat): (after: World)
    requires Shape(w) && id in w.agents
    ensures Shape(after)
  {
    var a, cell := w.agents[id], CellOf(w, id);
    w.(grid := Put(w.grid, a.at, cell.(kind := Empty, resourceValue := None)),
       agents := w.agents[id := a.(collected := a.collected + Gain(cell))],
       collected := w.collected + Gain(cell))
  }

  function Act(w: World, id: nat, action: Action): (after: World)
    requires Shape(w) && id in w.agents
    ensures Shape(after) && after.agents.Keys == w.agents.Keys && after.order == w.order
    ensures after.steps == w.steps && after.width == w.width && after.height == w.height
  {
    if !Succeeds(w, id, action) then w
    else if action == Collect then Collected(w, id)
    else Moved(w, id, Target(w, w.agents[id].at, action))
  }

  /** The first n agents of the order have acted; the k-th of them drew actions(k). */
  function ActAll(w: World, n: nat, actions: nat -> Action): (after: World)
    requires Shape(w) && n <= |w.order|
    ensures Shape(after) && after.agents.Keys == w.agents.Keys && after.order == w.order
    ensures after.steps == w.steps && after.width == w.width && after.height == w.height
    decreases n
  {
    if n == 0 then w else Act(ActAll(w, n - 1, actions), w.order[n - 1], actions(n - 1))
  }

  function StepWorld(w: World, paused: bool, actions: nat -> Action): (after: World)
    requires Shape(w)
    ensures Shape(after) && after.agents.Keys == w.agents.Keys && after.order == w.order
    ensures after.steps == w.steps + 1
  {
    var ticked := w.(steps := w.steps + 1);
    if paused then ticked else ActAll(ticked, |w.order|, actions)
  }

  predicate HasResources(w: World) {
    exists y, x :: 0 <= y < |w.grid| && 0 <= x < |w.grid[y]| && w.grid[y][x].kind == Resource
  }

  predicate Continues(w: World) { HasResources(w) && w.steps < 1000 }

  /** What a run meets: the actions drawn in step number s, and after that step a pause or the time limit. */
  datatype Outside = Outside(actions: (nat, nat) -> Action, pause: nat -> bool, timeUp: nat -> bool)

  function Drawn(outside: Outside, step: nat): nat -> Action {
    (k: nat) => outside.actions(step, k)
  }

  predicate Ends(w: World, outside: Outside) {
    !Continues(w) || outside.timeUp(w.steps) || outside.pause(w.steps)
  }

  function RunFrom(w: World, limit: int, outside: Outside): (after: World)
    requires Shape(w)
    ensures Shape(after) && after.agents.Keys == w.agents.Keys && after.order == w.order
    decreases limit - w.steps
  {
    if w.steps >= limit then w
    else
      var next := StepWorld(w, false, Drawn(outside, w.steps + 1));
      if Ends(next, outside) then next
      else RunFrom(next, limit, outside)
  }

  // ---------------------------------------------------------------- adding agents

  datatype Placing = Placed(world: World) | Threw | Spinning

  /** The first spot is the requested one; every later spot is drawn because the one before was not empty. */
  function Place(w: World, id: nat, spots: seq<Pos>): (p: Placing)
    requires Shape(w)
    ensures p.Placed? ==> Shape(p.world)
    decreases spots
  {
    if spots == [] then Spinning
    else if !On(w.grid, spots[0]) then Threw
    else if At(w.grid, spots[0]).kind != Empty then Place(w, id, spots[1..])
    else Placed(Settled(w, id, spots[0]))
  }

  function Settled(w: World, id: nat, p: Pos): (after: World)
    requires Shape(w) && On(w.grid, p)
    ensures Shape(after)
  {
    w.(agents := w.agents[id := Agent(p, 0)],
       order := if id in w.agents then w.order else w.order + [id],
       grid := Put(w.grid, p, At(w.grid, p).(kind := Occupied, agentId := Some(id))))
  }

  // ---------------------------------------------------------------- one action

  ghost predicate OffBlocked(w: World)
    requires Shape(w)
  {
    forall id :: id in w.agents ==> CellOf(w, id).kind == Empty || CellOf(w, id).kind == Occupied
  }

  /** Every cell marked as an agent's names an agent that stands there. */
  ghost predicate Marks(w: World)
    requires Shape(w)
  {
    forall p :: On(w.grid, p) && At(w.grid, p).kind == Occupied ==>
      At(w.grid, p).agentId.Some? && At(w.grid, p).agentId.value in w.agents && w.agents[At(w.grid, p).agentId.value].at == p
  }

  /** Every agent's cell is marked as its own. */
  ghost predicate AllMarked(w: World)
    requires Shape(w)
  {
    forall id :: id in w.agents ==> CellOf(w, id).kind == Occupied && CellOf(w, id).agentId == Some(id)
  }

  ghost function Resources(w: World): set<Pos> {
    set x, y | 0 <= y < |w.grid| && 0 <= x < |w.grid[y]| && w.grid[y][x].kind == Resource :: Pos(x, y)
  }

  ghost predicate ScoresZero(w: World) {
    w.collected == 0 && forall id :: id in w.agents ==> w.agents[id].collected == 0
  }

  /**
    From a to b: obstacles stay, the resources lost are those on the trail, the score is the same, agents
    stay off obstacles and resources, and (if named) marks go on naming an agent that stands there.
  */
  ghost predicate Kept(a: World, b: World, trail: set<Pos>, named: bool)
    requires Shape(a) && Shape(b)
  {
    && a.width == b.width && a.height == b.height
    && (forall p :: On(a.grid, p) ==> On(b.grid, p) && (At(a.grid, p).kind == Obstacle <==> At(b.grid, p).kind == Obstacle))
    && Resources(b) == Resources(a) - trail
    && OffBlocked(b)
    && a.collected == b.collected && (ScoresZero(a) ==> ScoresZero(b))
    && (named && Marks(a) ==> Marks(b))
  }

  lemma ResourceAt(w: World, p: Pos)
    ensures p in Resources(w) <==> On(w.grid, p) && At(w.grid, p).kind == Resource
  {
    if On(w.grid, p) && At(w.grid, p).kind == Resource {
      assert w.grid[p.y][p.x].kind == Resource && Pos(p.x, p.y) == p;
    }
  }

  /** At most one cell apart, and not diagonally. */
  predicate Near(a: Pos, b: Pos) {
    -1 <= (b.x - a.x) + (b.y - a.y) <= 1 && (b.x == a.x || b.y == a.y)
  }

  lemma TargetOn(w: World, p: Pos, action: Action)
    requires Shape(w) && On(w.grid, p)
    ensures On(w.grid, Target(w, p, action)) && Near(p, Target(w, p, action))
  {
  }

  /** A move, cell by cell: the old cell is emptied, then the new one is marked, whatever it held. */
  lemma MovedCells(w: World, id: nat, to: Pos)
    requires Shape(w) && id in w.agents && On(w.grid, to)
    ensures Moved(w, id, to).agents == w.agents[id := w.agents[id].(at := to)]
    ensures forall q :: On(Moved(w, id, to).grid, q) <==> On(w.grid, q)
    ensures forall q :: On(w.grid, q) ==> (At(Moved(w, id, to).grid, q).kind
         == if q == to then Occupied else if q == w.agents[id].at then Empty else At(w.grid, q).kind)
    ensures forall q :: On(w.grid, q) ==> (At(Moved(w, id, to).grid, q).agentId
         == if q == to then Some(id) else if q == w.agents[id].at then None else At(w.grid, q).agentId)
  {
  }

  lemma MovedResources(w: World, id: nat, to: Pos)
    requires Shape(w) && id in w.agents && OffBlocked(w)
    requires On(w.grid, to)
    ensures Resources(Moved(w, id, to)) == Resources(w) - {to}
  {
    var after := Moved(w, id, to);
    MovedCells(w, id, to);
    assert On(w.grid, w.agents[id].at);
    hide Moved, Put, At, On, Resources;
    forall p ensures p in Resources(after) <==> p in Resources(w) && p != to {
      ResourceAt(w, p);
      ResourceAt(after, p);
    }
  }

  lemma MovedMarks(w: World, id: nat, to: Pos)
    requires Shape(w) && id in w.agents && On(w.grid, to) && Marks(w)
    ensures Marks(Moved(w, id, to))
  {
    MovedCells(w, id, to);
    hide Moved, Put, At, On, Shape;
  }

  lemma MovedBlocked(w: World, id: nat, to: Pos)
    requires Shape(w) && id in w.agents && OffBlocked(w)
    requires On(w.grid, to) && At(w.grid, to).kind != Obstacle
    ensures OffBlocked(Moved(w, id, to))
    ensures forall p :: On(w.grid, p) ==> (At(w.grid, p).kind == Obstacle <==> At(Moved(w, id, to).grid, p).kind == Obstacle)
    ensures ScoresZero(w) ==> ScoresZero(Moved(w, id, to))
  {
    var after := Moved(w, id, to);
    assert after.collected == w.collected;
    MovedCells(w, id, to);
    hide Moved, Put, At, On;
  }

  /** An agent off the resources never collects: it loses the resource it walks onto instead. */
  lemma ActKeeps(w: World, id: nat, action: Action)
    requires Shape(w) && id in w.agents && OffBlocked(w)
    ensures Kept(w, Act(w, id, action), {Act(w, id, action).agents[id].at}, true)
  {
    hide Moved, Put, At, On, Shape, OffBlocked, Resources, Marks, ScoresZero, Target;
    NeverCollects(w, id);
    AgentOn(w, id);
    if Succeeds(w, id, action) {
      var to := Target(w, w.agents[id].at, action);
      TargetOn(w, w.agents[id].at, action);
      MovedKeeps(w, id, to);
    } else {
      KeptReflexive(w, w.steps);
      StandsOffResource(w, id);
    }
  }

  lemma MovedKeeps(w: World, id: nat, to: Pos)
    requires Shape(w) && id in w.agents && OffBlocked(w)
    requires On(w.grid, to) && At(w.grid, to).kind != Obstacle
    ensures Moved(w, id, to).agents == w.agents[id := w.agents[id].(at := to)]
    ensures Kept(w, Moved(w, id, to), {to}, true)
  {
    hide Put, At, On, Shape, OffBlocked, Resources, Marks, ScoresZero;
    MovedCells(w, id, to);
    MovedBlocked(w, id, to);
    MovedResources(w, id, to);
    if Marks(w) {
      MovedMarks(w, id, to);
    }
  }

  lemma StandsOffResource(w: World, id: nat)
    requires Shape(w) && id in w.agents && OffBlocked(w)
    ensures Resources(w) - {w.agents[id].at} == Resources(w)
  {
    assert CellOf(w, id).kind != Resource;
    ResourceAt(w, w.agents[id].at);
  }

  /** An agent off the resources has nothing to collect. */
  lemma NeverCollects(w: World, id: nat)
    requires Shape(w) && id in w.agents && OffBlocked(w)
    ensures !Succeeds(w, id, Collect)
  {
    assert CellOf(w, id).kind != Resource;
  }

  /** Only the acting agent moves, by one cell at most, and its score stays. */
  lemma ActMoves(w: World, id: nat, action: Action)
    requires Shape(w) && id in w.agents && OffBlocked(w)
    ensures var a, b := w.agents[id], Act(w, id, action).agents[id]; b.collected == a.collected && Near(a.at, b.at)
    ensures forall other :: other in w.agents && other != id ==> Act(w, id, action).agents[other] == w.agents[other]
  {
    hide Moved, Put, At, On, OffBlocked, Target, Shape;
    NeverCollects(w, id);
    AgentOn(w, id);
    if Succeeds(w, id, action) {
      TargetOn(w, w.agents[id].at, action);
      MovedCells(w, id, Target(w, w.agents[id].at, action));
    }
  }

  lemma AgentOn(w: World, id: nat)
    requires Shape(w) && id in w.agents
    ensures On(w.grid, w.agents[id].at)
  {
  }

  /** Where every agent's cell is marked, an action keeps it so exactly when no other agent stands where it moves. */
  lemma AllMarkedIff(w: World, id: nat, action: Action)
    requires Shape(w) && id in w.agents && AllMarked(w)
    ensures AllMarked(Act(w, id, action)) <==>
      (Succeeds(w, id, action) ==>
         forall other :: other in w.agents && other != id ==> w.agents[other].at != Target(w, w.agents[id].at, action))
  {
    if Succeeds(w, id, action) {
      var to := Target(w, w.agents[id].at, action);
      TargetOn(w, w.agents[id].at, action);
      assert CellOf(w, id).kind == Occupied;
      assert Act(w, id, action) == Moved(w, id, to);
      MovedMarkedIff(w, id, to);
      MovedCells(w, id, to);
    } else {
      assert Act(w, id, action) == w;
      hide Act, Succeeds;
    }
  }

  lemma MovedMarkedIff(w: World, id: nat, to: Pos)
    requires Shape(w) && id in w.agents && AllMarked(w) && On(w.grid, to)
    ensures AllMarked(Moved(w, id, to)) <==> forall other :: other in w.agents && other != id ==> w.agents[other].at != to
  {
    var after := Moved(w, id, to);
    MovedCells(w, id, to);
    hide Moved, Put, At, On;
    forall other | other in w.agents && other != id
      ensures CellOf(after, other).kind == Occupied && CellOf(after, other).agentId == Some(other) <==> w.agents[other].at != to
    {
      assert CellOf(w, other).agentId == Some(other) && CellOf(w, id).agentId == Some(id);
    }
  }

  // ---------------------------------------------------------------- whole runs

  lemma KeptTransitive(a: World, b: World, c: World, s: set<Pos>, t: set<Pos>, named: bool)
    requires Shape(a) && Shape(b) && Shape(c) && Kept(a, b, s, named) && Kept(b, c, t, named)
    ensures Kept(a, c, s + t, named)
  {
    hide Shape, Resources, OffBlocked, Marks, ScoresZero, At, On;
  }

  lemma KeptReflexive(w: World, steps: nat)
    requires Shape(w) && OffBlocked(w)
    ensures Shape(w.(steps := steps)) && Kept(w, w.(steps := steps), {}, true)
  {
  }

  lemma KeptBlocked(a: World, b: World, trail: set<Pos>, named: bool)
    requires Shape(a) && Shape(b) && Kept(a, b, trail, named)
    ensures OffBlocked(b) && Kept(a, b, trail, false)
  {
  }

  lemma Visited(w: World, k: nat)
    requires Shape(w) && k < |w.order|
    ensures w.order[k] in w.agents
  {
    assert w.order[k] in w.order;
  }

  /** The cells agents stand on after each of the first n actions of a step. */
  ghost function Trail(w: World, n: nat, actions: nat -> Action): set<Pos>
    requires Shape(w) && n <= |w.order|
    decreases n
  {
    if n == 0 then {}
    else Trail(w, n - 1, actions) + {ActAll(w, n, actions).agents[w.order[n - 1]].at}
  }

  lemma {:induction false} ActAllKeeps(w: World, n: nat, actions: nat -> Action)
    requires Shape(w) && n <= |w.order| && OffBlocked(w)
    ensures Kept(w, ActAll(w, n, actions), Trail(w, n, actions), true)
    decreases n
  {
    hide Kept, Act, OffBlocked, Shape;
    if n == 0 {
      KeptReflexive(w, w.steps);
    } else {
      var before, after := ActAll(w, n - 1, actions), ActAll(w, n, actions);
      var id := w.order[n - 1];
      Visited(w, n - 1);
      ActAllKeeps(w, n - 1, actions);
      KeptBlocked(w, before, Trail(w, n - 1, actions), true);
      ActKeeps(before, id, actions(n - 1));
      KeptTransitive(w, before, after, Trail(w, n - 1, actions), {after.agents[id].at}, true);
    }
  }

  lemma StepKeeps(w: World, paused: bool, actions: nat -> Action)
    requires Shape(w) && OffBlocked(w)
    ensures Kept(w, StepWorld(w, paused, actions), StepTrail(w, paused, actions), true)
  {
    hide Kept, OffBlocked, ActAll, Trail, Shape;
    var ticked, next := w.(steps := w.steps + 1), StepWorld(w, paused, actions);
    KeptReflexive(w, w.steps + 1);
    if !paused {
      KeptBlocked(w, ticked, {}, true);
      ActAllKeeps(ticked, |w.order|, actions);
      KeptTransitive(w, ticked, next, {}, Trail(ticked, |w.order|, actions), true);
      assert {} + Trail(ticked, |w.order|, actions) == Trail(ticked, |w.order|, actions);
    }
  }

  ghost function StepTrail(w: World, paused: bool, actions: nat -> Action): set<Pos>
    requires Shape(w)
  {
    if paused then {} else Trail(w.(steps := w.steps + 1), |w.order|, actions)
  }

  ghost function RunTrail(w: World, limit: int, outside: Outside): set<Pos>
    requires Shape(w)
    decreases limit - w.steps
  {
    if w.steps >= limit then {}
    else
      var actions := Drawn(outside, w.steps + 1);
      var next := StepWorld(w, false, actions);
      StepTrail(w, false, actions) + if Ends(next, outside) then {} else RunTrail(next, limit, outside)
  }

  /** Every run keeps all of this; the resources lost are exactly the ones agents walked over. */
  lemma {:induction false} RunKeeps(w: World, limit: int, outside: Outside)
    requires Shape(w) && OffBlocked(w)
    ensures Kept(w, RunFrom(w, limit, outside), RunTrail(w, limit, outside), true)
    decreases limit - w.steps
  {
    hide Kept, StepWorld, StepTrail, OffBlocked, Ends, Shape;
    if w.steps >= limit {
      KeptReflexive(w, w.steps);
    } else {
      var actions := Drawn(outside, w.steps + 1);
      var next := StepWorld(w, false, actions);
      var trail := StepTrail(w, false, actions);
      StepKeeps(w, false, actions);
      if Ends(next, outside) {
        assert trail + {} == trail;
      } else {
        KeptBlocked(w, next, trail, true);
        RunKeeps(next, limit, outside);
        KeptTransitive(w, next, RunFrom(w, limit, outside), trail, RunTrail(next, limit, outside), true);
      }
    }
  }

  /** A run stops by its limit, and by step 1000 when it makes more than one step; it stops early only for a reason. */
  lemma {:induction false} RunStops(w: World, limit: int, outside: Outside)
    requires Shape(w)
    ensures var after := RunFrom(w, limit, outside);
      && w.steps <= after.steps <= Max(w.steps, Min(limit, Max(w.steps + 1, 1000)))
      && (after.steps < limit ==> Ends(after, outside))
    decreases limit - w.steps
  {
    hide Shape, StepWorld, HasResources;
    if w.steps < limit {
      var next := StepWorld(w, false, Drawn(outside, w.steps + 1));
      if !Ends(next, outside) {
        RunStops(next, limit, outside);
      }
    }
  }

  // ---------------------------------------------------------------- adding agents

  lemma {:induction false} PlaceSpot(w: World, id: nat, spots: seq<Pos>) returns (p: Pos)
    requires Shape(w) && Place(w, id, spots).Placed?
    ensures On(w.grid, p) && At(w.grid, p).kind == Empty && Place(w, id, spots).world == Settled(w, id, p)
    decreases spots
  {
    if At(w.grid, spots[0]).kind != Empty {
      p := PlaceSpot(w, id, spots[1..]);
    } else {
      p := spots[0];
    }
  }

  lemma SettledCells(w: World, id: nat, p: Pos)
    requires Shape(w) && On(w.grid, p)
    ensures Settled(w, id, p).agents == w.agents[id := Agent(p, 0)]
    ensures forall q :: On(Settled(w, id, p).grid, q) <==> On(w.grid, q)
    ensures forall q :: On(w.grid, q) ==> (At(Settled(w, id, p).grid, q).kind == if q == p then Occupied else At(w.grid, q).kind)
    ensures forall q :: On(w.grid, q) ==>
      (At(Settled(w, id, p).grid, q).agentId == if q == p then Some(id) else At(w.grid, q).agentId)
  {
  }

  lemma SettledResources(w: World, id: nat, p: Pos)
    requires Shape(w) && On(w.grid, p) && At(w.grid, p).kind == Empty
    ensures Resources(Settled(w, id, p)) == Resources(w)
  {
    hide Settled, At, On, Resources;
    var after := Settled(w, id, p);
    SettledCells(w, id, p);
    forall q ensures q in Resources(after) <==> q in Resources(w) {
      ResourceAt(w, q);
      ResourceAt(after, q);
    }
  }

  /** Adding an agent keeps the marks exactly when it does not leave a mark naming the same id behind. */
  lemma SettledMarksIff(w: World, id: nat, p: Pos)
    requires Shape(w) && On(w.grid, p) && At(w.grid, p).kind == Empty && Marks(w)
    ensures Marks(Settled(w, id, p)) <==>
      !(id in w.agents && CellOf(w, id).kind == Occupied && CellOf(w, id).agentId == Some(id))
  {
    hide Settled, At, On;
    SettledCells(w, id, p);
    if id in w.agents {
      assert On(w.grid, w.agents[id].at);
    }
  }

  lemma SettledKeeps(w: World, id: nat, p: Pos)
    requires Shape(w) && OffBlocked(w) && On(w.grid, p) && At(w.grid, p).kind == Empty
    ensures Kept(w, Settled(w, id, p), {}, id !in w.agents)
  {
    hide At, On, Shape, OffBlocked, Resources, Marks, ScoresZero, Put;
    SettledCells(w, id, p);
    SettledResources(w, id, p);
    SettledBlocked(w, id, p);
    if Marks(w) {
      SettledMarksIff(w, id, p);
    }
  }

  lemma SettledBlocked(w: World, id: nat, p: Pos)
    requires Shape(w) && OffBlocked(w) && On(w.grid, p) && At(w.grid, p).kind == Empty
    ensures OffBlocked(Settled(w, id, p)) && (ScoresZero(w) ==> ScoresZero(Settled(w, id, p)))
  {
    SettledCells(w, id, p);
  }

  // ---------------------------------------------------------------- the life of a world

  datatype Call = AddCall(id: nat, spots: seq<Pos>) | StepCall(paused: bool, actions: nat -> Action) | RunCall(maxSteps: int, outside: Outside)

  /** `config.maxSteps || 1000` */
  function Limit(maxSteps: int): int { if maxSteps == 0 then 1000 else maxSteps }

  function Serve(w: World, call: Call): (after: World)
    requires Shape(w)
    ensures Shape(after)
  {
    match call
    case AddCall(id, spots) => if Place(w, id, spots).Placed? then Place(w, id, spots).world else w
    case StepCall(paused, actions) => StepWorld(w, paused, actions)
    case RunCall(maxSteps, outside) => RunFrom(w, Limit(maxSteps), outside)
  }

  ghost function CallTrail(w: World, call: Call): set<Pos>
    requires Shape(w)
  {
    match call
    case AddCall(_, _) => {}
    case StepCall(paused, actions) => StepTrail(w, paused, actions)
    case RunCall(maxSteps, outside) => RunTrail(w, Limit(maxSteps), outside)
  }

  function Live(w: World, calls: seq<Call>): (after: World)
    requires Shape(w)
    ensures Shape(after)
    decreases |calls|
  {
    if calls == [] then w else Serve(Live(w, calls[..|calls| - 1]), calls[|calls| - 1])
  }

  ghost function LifeTrail(w: World, calls: seq<Call>): set<Pos>
    requires Shape(w)
    decreases |calls|
  {
    if calls == [] then {}
    else
      var before := calls[..|calls| - 1];
      LifeTrail(w, before) + CallTrail(Live(w, before), calls[|calls| - 1])
  }

  /** No call adds an id that is there already. */
  ghost predicate OncePerId(w: World, calls: seq<Call>)
    requires Shape(w)
    decreases |calls|
  {
    calls != [] ==>
      var before, call := calls[..|calls| - 1], calls[|calls| - 1];
      OncePerId(w, before) && NewId(Live(w, before), call)
  }

  ghost predicate NewId(w: World, call: Call) {
    call.AddCall? ==> call.id !in w.agents
  }

  lemma ServeKeeps(w: World, call: Call)
    requires Shape(w) && OffBlocked(w)
    ensures Kept(w, Serve(w, call), CallTrail(w, call), NewId(w, call))
  {
    hide Kept, OffBlocked, Shape, Place, StepWorld, RunFrom, StepTrail, RunTrail, Settled;
    match call
    case AddCall(id, spots) =>
      if Place(w, id, spots).Placed? {
        var p := PlaceSpot(w, id, spots);
        SettledKeeps(w, id, p);
      } else {
        KeptReflexive(w, w.steps);
        KeptBlocked(w, w, {}, true);
      }
    case StepCall(paused, actions) => StepKeeps(w, paused, actions);
    case RunCall(maxSteps, outside) => RunKeeps(w, Limit(maxSteps), outside);
  }

  lemma {:induction false} LiveKeeps(w: World, calls: seq<Call>)
    requires Shape(w) && OffBlocked(w)
    ensures Kept(w, Live(w, calls), LifeTrail(w, calls), OncePerId(w, calls))
    decreases |calls|
  {
    hide Kept, OffBlocked, Shape, Serve, CallTrail, NewId;
    if calls == [] {
      KeptReflexive(w, w.steps);
    } else {
      var before, call := calls[..|calls| - 1], calls[|calls| - 1];
      var middle, after := Live(w, before), Live(w, calls);
      var named := OncePerId(w, calls);
      LiveKeeps(w, before);
      KeptBlocked(w, middle, LifeTrail(w, before), OncePerId(w, before));
      ServeKeeps(middle, call);
      KeptBlocked(middle, after, CallTrail(middle, call), NewId(middle, call));
      KeptTransitive(w, middle, after, LifeTrail(w, before), CallTrail(middle, call), named);
    }
  }

  ghost predicate Fresh(w: World) {
    && w.width > 0 && w.height > 0 && Rectangle(w.grid, w.width, w.height)
    && w.agents == map[] && w.order == [] && w.collected == 0
    && forall p :: On(w.grid, p) ==> At(w.grid, p).kind != Occupied
  }

  /**
    Over the whole life of a world, whatever is drawn: agents stay on the grid and off obstacles, obstacles
    never change, resources never appear and are lost exactly where agents walk, nobody ever scores, and if
    no id is added twice every mark names an agent standing there.
  */
  lemma LifeOfAWorld(w: World, calls: seq<Call>)
    requires Fresh(w)
    ensures Shape(w)
    ensures var after := Live(w, calls);
      && Shape(after) && OffBlocked(after) && ScoresZero(after)
      && Resources(after) == Resources(w) - LifeTrail(w, calls)
      && (forall p :: On(w.grid, p) ==> On(after.grid, p) && (At(w.grid, p).kind == Obstacle <==> At(after.grid, p).kind == Obstacle))
      && (OncePerId(w, calls) ==> Marks(after))
  {
    hide Live, LifeTrail, OncePerId, Resources, At;
    FreshOk(w);
    LiveKeeps(w, calls);
  }

  lemma FreshOk(w: World)
    requires Fresh(w)
    ensures Shape(w) && OffBlocked(w) && ScoresZero(w) && Marks(w)
  {
  }

  // ---------------------------------------------------------------- the score

  function Total(agents: map<nat, Agent>, ids: seq<nat>): int
    requires forall id :: id in ids ==> id in agents
  {
    if ids == [] then 0 else Total(agents, ids[..|ids| - 1]) + agents[ids[|ids| - 1]].collected
  }

  lemma {:induction false} TotalChanges(agents: map<nat, Agent>, ids: seq<nat>, id: nat, a: Agent)
    requires (forall i :: i in ids ==> i in agents) && id in agents && Distinct(ids)
    ensures Total(agents[id := a], ids) == Total(agents, ids) + if id in ids then a.collected - agents[id].collected else 0
  {
    if ids != [] {
      TotalChanges(agents, ids[..|ids| - 1], id, a);
      assert ids == ids[..|ids| - 1] + [ids[|ids| - 1]];
    }
  }

  /** In any world at all, an action pays into the world's score what it pays to the agent. */
  lemma ActAccounts(w: World, id: nat, action: Action)
    requires Shape(w) && id in w.agents
    ensures var after := Act(w, id, action);
      Total(after.agents, after.order) - after.collected == Total(w.agents, w.order) - w.collected
  {
    var after := Act(w, id, action);
    if Succeeds(w, id, action) {
      TotalChanges(w.agents, w.order, id, after.agents[id]);
    }
  }

  // ---------------------------------------------------------------- the environment object

  /** Its fields are updated in place; Model is the world they describe. */
  class GridWorldEnvironment {
    const width: int
    const height: int
    var grid: seq<seq<Cell>>
    var agents: map<nat, Agent>
    var order: seq<nat>
    var resourcesCollected: int
    var steps: nat
    var isRunning: bool
    var isPaused: bool

    function Model(): World
      reads this
    {
      World(width, height, grid, agents, order, resourcesCollected, steps)
    }

    constructor (width: int, height: int, grid: seq<seq<Cell>>)
      requires width > 0 && height > 0 && Rectangle(grid, width, height)
      requires forall p :: On(grid, p) ==> At(grid, p).kind != Occupied
      ensures Fresh(Model()) && Shape(Model()) && this.grid == grid && !isRunning && !isPaused
    {
      this.width, this.height, this.grid := width, height, grid;
      agents, order, resourcesCollected, steps := map[], [], 0, 0;
      isRunning, isPaused := false, false;
    }

    method AddAgent(id: nat, spots: seq<Pos>) returns (placing: Placing)
      requires Shape(Model())
      modifies this
      ensures placing == old(Place(Model(), id, spots))
      ensures Model() == if placing.Placed? then placing.world else old(Model())
      ensures isRunning == old(isRunning) && isPaused == old(isPaused)
    {
      var k := 0;
      while k < |spots| && On(grid, spots[k]) && At(grid, spots[k]).kind != Empty
        invariant 0 <= k <= |spots|
        invariant Place(Model(), id, spots[k..]) == Place(Model(), id, spots)
        invariant Model() == old(Model())
      {
        assert spots[k..][1..] == spots[k + 1..];
        k := k + 1;
      }
      if k == |spots| {
        return Spinning;
      }
      assert spots[k..][0] == spots[k];
      if !On(grid, spots[k]) {
        return Threw;
      }
      var p := spots[k];
      order := if id in agents then order else order + [id];
      agents := agents[id := Agent(p, 0)];
      grid := Put(grid, p, At(grid, p).(kind := Occupied, agentId := Some(id)));
      placing := Placed(Model());
    }

    method ExecuteAction(id: nat, action: Action) returns (ok: bool)
      requires Shape(Model()) && id in agents
      modifies this
      ensures ok == old(Succeeds(Model(), id, action))
      ensures Model() == old(Act(Model(), id, action))
      ensures isRunning == old(isRunning) && isPaused == old(isPaused)
    {
      hide Shape, Put, At, Target, Gain;
      var agent := agents[id];
      AgentOn(Model(), id);
      TargetOn(Model(), agent.at, action);
      if action == Collect {
        var cell := At(grid, agent.at);
        if cell.kind == Resource {
          agents := agents[id := agent.(collected := agent.collected + Gain(cell))];
          resourcesCollected := resourcesCollected + Gain(cell);
          grid := Put(grid, agent.at, cell.(kind := Empty, resourceValue := None));
          return true;
        }
        return false;
      }
      var to := Target(Model(), agent.at, action);
      if At(grid, to).kind == Obstacle {
        return false;
      }
      grid := Put(grid, agent.at, At(grid, agent.at).(kind := Empty, agentId := None));
      agents := agents[id := agent.(at := to)];
      grid := Put(grid, to, At(grid, to).(kind := Occupied, agentId := Some(id)));
      ok := true;
    }

    /** The loop over the agents. */
    method MoveAgents(actions: nat -> Action)
      requires Shape(Model())
      modifies this
      ensures Model() == if isPaused then old(Model()) else ActAll(old(Model()), |old(order)|, actions)
      ensures isRunning == old(isRunning) && isPaused == old(isPaused)
    {
      hide Shape, Act, Succeeds;
      ghost var before := Model();
      for k := 0 to |order|
        invariant order == before.order
        invariant isRunning == old(isRunning) && isPaused == old(isPaused) && (isPaused ==> k == 0)
        invariant Shape(Model()) && Model() == ActAll(before, k, actions)
      {
        if isPaused {
          break;
        }
        Visited(Model(), k);
        var ok := ExecuteAction(order[k], actions(k));
      }
    }

    method Step(actions: nat -> Action) returns (continues: bool)
      requires Shape(Model())
      modifies this
      ensures Model() == old(StepWorld(Model(), isPaused, actions))
      ensures continues == Continues(Model())
      ensures isRunning == old(isRunning) && isPaused == old(isPaused)
    {
      hide Shape, Continues, ActAll;
      KeptShape(Model(), steps + 1);
      steps := steps + 1;
      MoveAgents(actions);
      continues := Continues(Model());
    }

    /** The report says that the step limit was reached however the run ended. */
    method Run(maxSteps: int, outside: Outside) returns (made: nat, terminated: bool, terminationReason: string)
      requires Shape(Model())
      modifies this
      ensures Model() == old(RunFrom(Model(), Limit(maxSteps), outside))
      ensures made == steps && !terminated && terminationReason == "max-steps-reached"
      ensures !isRunning && (isPaused <==> old(steps) < steps && outside.pause(steps))
    {
      hide Shape, StepWorld, HasResources;
      var limit := Limit(maxSteps);
      isRunning, isPaused := true, false;
      while steps < limit && isRunning && !isPaused
        invariant Shape(Model()) && isRunning && old(steps) <= steps
        invariant isPaused <==> old(steps) < steps && outside.pause(steps)
        invariant old(RunFrom(Model(), limit, outside)) == if isPaused then Model() else RunFrom(Model(), limit, outside)
        decreases limit - steps
      {
        var continues := Step(Drawn(outside, steps + 1));
        if outside.pause(steps) {
          isPaused := true;
        }
        if !continues {
          break;
        }
        if outside.timeUp(steps) {
          break;
        }
      }
      made, terminated := steps, !isRunning;
      terminationReason := if isRunning then "max-steps-reached" else "completed";
      isRunning := false;
    }
  }

  lemma KeptShape(w: World, steps: nat)
    requires Shape(w)
    ensures Shape(w.(steps := steps))
  {
  }
}
