/**
 * One pedestrian of npc.ts and the rules that move it: the walk / turn /
 * idle state machine, the choice of exit on entering a road tile, the
 * reversal at a dead end, the lifetime countdown, and the rules that
 * place a new walker in front of a lot.
 *
 * Every `Math.random()` result is a parameter in [0, 1). Directions are
 * the four cardinal unit vectors with integer components; tiles are the
 * integer world coordinates `tileX`, `tileZ` of npc.ts.
 */
module Walkers {
  import opened Wrappers
  import opened Constants
  import opened TileKeys
  import opened JsMap
  import opened Placement

  /** `MAX_WALKERS`. */
  const MAX_WALKERS: nat := 40
  /** `ROAD_EDGE_MARGIN = CELL * 0.5 - 0.05`. */
  const ROAD_EDGE_MARGIN: real := CELL as real * 0.5 - 0.05
  /** `frontOffset = CELL / 2 - 0.9`, the spawn distance from the lot. */
  const FRONT_OFFSET: real := CELL as real / 2.0 - 0.9

  /** A value `Math.random()` can return. */
  predicate Unit(r: real) {
    0.0 <= r < 1.0
  }

  /** `(Math.random() * n) | 0`: an index chosen by the draw `p`. */
  function PickIndex(p: real, n: nat): (i: nat)
    requires Unit(p) && n > 0
    ensures i < n
  {
    assert p * n as real < n as real;
    (p * n as real).Floor
  }

  /**
   * The four unit headings `(dx, dz)` a walker can have; `DX` and `DZ` give
   * the vector's components.
   */
  datatype Dir = PlusX | MinusX | PlusZ | MinusZ

  function DX(d: Dir): int {
    match d
    case PlusX => 1
    case MinusX => -1
    case _ => 0
  }

  function DZ(d: Dir): int {
    match d
    case PlusZ => 1
    case MinusZ => -1
    case _ => 0
  }

  /** A heading is determined by its two components. */
  lemma ComponentsDetermine(a: Dir, b: Dir)
    ensures DX(a) == DX(b) && DZ(a) == DZ(b) ==> a == b
  {
  }

  /** `(-dir.z, dir.x)`. */
  function Left(d: Dir): (l: Dir)
    ensures DX(l) == -DZ(d) && DZ(l) == DX(d)
  {
    match d
    case PlusX => PlusZ
    case PlusZ => MinusX
    case MinusX => MinusZ
    case MinusZ => PlusX
  }

  /** `(dir.z, -dir.x)`. */
  function Right(d: Dir): (r: Dir)
    ensures DX(r) == DZ(d) && DZ(r) == -DX(d)
  {
    match d
    case PlusX => MinusZ
    case MinusZ => MinusX
    case MinusX => PlusZ
    case PlusZ => PlusX
  }

  /** `dir * -1`. */
  function Back(d: Dir): (b: Dir)
    ensures DX(b) == -DX(d) && DZ(b) == -DZ(d)
  {
    match d
    case PlusX => MinusX
    case MinusX => PlusX
    case PlusZ => MinusZ
    case MinusZ => PlusZ
  }

  /**
   * Forward, left, right and back are four different headings; right
   * undoes left, and two lefts make a back.
   */
  lemma TurnsDistinct(d: Dir)
    ensures d != Left(d) && d != Right(d) && d != Back(d)
    ensures Left(d) != Right(d) && Left(d) != Back(d) && Right(d) != Back(d)
    ensures Right(Left(d)) == d && Left(Left(d)) == Back(d) && Back(Back(d)) == d
  {
  }

  function Abs(x: int): nat {
    if x < 0 then -x else x
  }

  function RAbs(x: real): real {
    if x < 0.0 then -x else x
  }

  /** `Math.sign`. */
  function Sign(x: real): real {
    if x > 0.0 then 1.0 else if x < 0.0 then -1.0 else 0.0
  }

  datatype Axis = AxisX | AxisZ

  /** `Math.abs(dir.x) > Math.abs(dir.z) ? "x" : "z"`. */
  function AxisOf(d: Dir): Axis {
    if Abs(DX(d)) > Abs(DZ(d)) then AxisX else AxisZ
  }

  datatype Gait = Walk | Turn | Idle

  /** The simulated fields of a walker record. */
  datatype Walker = Walker(
    px: real, pz: real,
    dir: Dir, speed: real, baseSpeed: real, life: real,
    tileX: int, tileZ: int, axis: Axis, perp: Dir,
    state: Gait,
    turnT: real, turnDur: real, queuedDir: Option<Dir>,
    idleT: real, idleDur: real)

  /**
   * What every walker satisfies from its creation on: the axis and
   * perpendicular that match its heading, a base speed in [0.6, 1.2),
   * speed 0 exactly while idle and the base speed otherwise, and, while
   * turning, a duration in [0.38, 0.56) and a cardinal queued heading.
   */
  ghost predicate WalkerInv(w: Walker) {
    && w.axis == AxisOf(w.dir) && w.perp == Left(w.dir)
    && 0.6 <= w.baseSpeed < 1.2
    && w.speed == (if w.state == Idle then 0.0 else w.baseSpeed)
    && (w.state == Turn ==>
          0.38 <= w.turnDur < 0.56 && w.queuedDir.Some?)
  }

  /**
   * The random draws one walker may consume in one update: the branch
   * roll and the uniform exit pick at an intersection, the turn duration,
   * the idle roll and the idle duration.
   */
  datatype Draws = Draws(roll: real, pick: real, turnDur: real, idle: real, idleDur: real)

  predicate DrawsOk(d: Draws) {
    Unit(d.roll) && Unit(d.pick) && Unit(d.turnDur) && Unit(d.idle) && Unit(d.idleDur)
  }

  /** `setupTurn(w, newDir)`: start turning towards `newDir`. */
  function SetupTurn(w: Walker, newDir: Dir, r: real): (v: Walker)
    requires Unit(r)
    ensures v.state == Turn && v.turnT == 0.0 && v.queuedDir == Some(newDir)
    ensures 0.38 <= v.turnDur < 0.56
    ensures v == w.(state := Turn, turnT := 0.0, turnDur := v.turnDur, queuedDir := Some(newDir))
  {
    w.(state := Turn, turnT := 0.0, turnDur := 0.38 + r * 0.18, queuedDir := Some(newDir))
  }

  /** `maybeIdle(w)`: a walking walker stops for a while with chance 5%. */
  function MaybeIdle(w: Walker, r: real, rd: real): (v: Walker)
    requires Unit(rd)
    ensures v.state == Idle && w.state != Idle ==> w.state == Walk && r < 0.05
    ensures w.state == Walk && r < 0.05 ==>
      v == w.(state := Idle, idleT := 0.0, idleDur := v.idleDur, speed := 0.0) && 1.0 <= v.idleDur < 3.2
    ensures !(w.state == Walk && r < 0.05) ==> v == w
  {
    if w.state == Walk && r < 0.05 then
      w.(state := Idle, idleT := 0.0, idleDur := 1.0 + rd * 2.2, speed := 0.0)
    else w
  }

  /**
   * `Math.min(1, t / dur) >= 1` in IEEE arithmetic: for a zero duration
   * `t / 0` is +Infinity, NaN or -Infinity as `t` is positive, zero or
   * negative.
   */
  predicate TurnComplete(t: real, dur: real): (b: bool)
    ensures dur != 0.0 ==> (b <==> RMin(1.0, t / dur) >= 1.0)
  {
    if dur > 0.0 then
      assert t == (t / dur) * dur;
      t >= dur
    else if dur < 0.0 then
      assert t == (t / dur) * dur;
      t <= dur
    else t > 0.0
  }

  /** `Math.min`. */
  function RMin(a: real, b: real): real {
    if a <= b then a else b
  }

  /**
   * The timers at the start of a walker's update: a turn that has run its
   * duration adopts the queued heading (recomputing axis and
   * the perpendicular `(-dir.z, dir.x)`) and resumes walking at the base speed; an idle pause
   * that has run its duration resumes walking at the base speed.
   */
  function Timers(w: Walker, dt: real): (v: Walker)
    ensures v.px == w.px && v.pz == w.pz && v.life == w.life
    ensures v.tileX == w.tileX && v.tileZ == w.tileZ && v.baseSpeed == w.baseSpeed
    ensures w.state == Walk ==> v == w
  {
    match w.state
    case Walk => w
    case Turn =>
      var t := w.turnT + dt;
      if TurnComplete(t, w.turnDur) then
        var u := if w.queuedDir.Some? then
          var q := w.queuedDir.value;
          w.(dir := q, axis := AxisOf(q), perp := Left(q))
        else w;
        u.(turnT := t, state := Walk, speed := w.baseSpeed)
      else w.(turnT := t)
    case Idle =>
      var t := w.idleT + dt;
      if t >= w.idleDur then w.(idleT := t, state := Walk, speed := w.baseSpeed)
      else w.(idleT := t)
  }

  /** `position += dir * speed * dt`, only while walking. */
  function Move(w: Walker, dt: real): (v: Walker)
    ensures v == w.(px := v.px, pz := v.pz)
  {
    if w.state == Walk then
      w.(px := w.px + DX(w.dir) as real * w.speed * dt, pz := w.pz + DZ(w.dir) as real * w.speed * dt)
    else w
  }

  /** Position along the walking axis, relative to the current tile. */
  function LocalProgress(w: Walker): real {
    if w.axis == AxisX then w.px - w.tileX as real else w.pz - w.tileZ as real
  }

  /** `roadExistsAt(cx, cz)`: the cell holding world point (cx, cz) is a road. */
  predicate RoadAt(roads: Bag, cx: int, cz: int) {
    roads.Has(KeyFromCenter(cx as real, cz as real))
  }

  /** On integer coordinates the probed key is the floor division by CELL. */
  lemma RoadAtKey(roads: Bag, cx: int, cz: int)
    ensures RoadAt(roads, cx, cz) <==> roads.Has(Key(cx / CELL, cz / CELL))
  {
    CellIndexOfInt(cx);
    CellIndexOfInt(cz);
  }

  /** `Math.abs(c) > 0.1 ? Math.sign(c) * CELL : 0` for an integer component. */
  function Offset(c: int): int {
    if c > 0 then CELL else if c < 0 then -CELL else 0
  }

  /** `tc(d)`: the tile one CELL beyond the current tile in direction `d`. */
  function NeighbourTile(w: Walker, d: Dir): (int, int) {
    (w.tileX + Offset(DX(d)), w.tileZ + Offset(DZ(d)))
  }

  /** The three candidate exits of a road tile, compared by identity in the source. */
  datatype Exit = Forward | LeftExit | RightExit

  function ExitDir(d: Dir, e: Exit): Dir {
    match e
    case Forward => d
    case LeftExit => Left(d)
    case RightExit => Right(d)
  }

  function Rank(e: Exit): nat {
    match e
    case Forward => 0
    case LeftExit => 1
    case RightExit => 2
  }

  predicate ExitOpen(roads: Bag, w: Walker, e: Exit) {
    var t := NeighbourTile(w, ExitDir(w.dir, e));
    RoadAt(roads, t.0, t.1)
  }

  /**
   * The `dirs` array: the exits whose next tile is a road, pushed in the
   * order forward, left, right.
   */
  function Exits(roads: Bag, w: Walker): (r: seq<Exit>)
    ensures forall e :: e in r <==> ExitOpen(roads, w, e)
    ensures forall i, j :: 0 <= i < j < |r| ==> Rank(r[i]) < Rank(r[j])
  {
    var fo, lo, ro := ExitOpen(roads, w, Forward), ExitOpen(roads, w, LeftExit), ExitOpen(roads, w, RightExit);
    var f := if fo then [Forward] else [];
    var l := if lo then [LeftExit] else [];
    var r := if ro then [RightExit] else [];
    assert forall e :: e in f + l + r <==> (e == Forward && fo) || (e == LeftExit && lo) || (e == RightExit && ro);
    f + l + r
  }

  /**
   * The choice at a tile with more than one exit: forward by default, left
   * on a roll below 0.15, right on a roll in [0.15, 0.3), and a uniform
   * pick among the exits if forward is not one of them.
   */
  function Decide(exits: seq<Exit>, roll: real, pick: real): (c: Exit)
    requires |exits| > 1 && Unit(pick)
    ensures c in exits || c == Forward
    ensures Forward in exits ==>
      && (c == LeftExit <==> LeftExit in exits && roll < 0.15)
      && (c == RightExit <==> RightExit in exits && 0.15 <= roll < 0.3)
    ensures Forward !in exits ==> c == exits[PickIndex(pick, |exits|)] && c in exits
  {
    var chosen :=
      if LeftExit in exits && roll < 0.15 then LeftExit
      else if RightExit in exits && roll >= 0.15 && roll < 0.3 then RightExit
      else Forward;
    if Forward !in exits then exits[PickIndex(pick, |exits|)] else chosen
  }

  /** What a walker does on entering a road tile with the given exits. */
  function Enter(w: Walker, exits: seq<Exit>, d: Draws): (v: Walker)
    requires DrawsOk(d)
    ensures v.px == w.px && v.pz == w.pz && v.tileX == w.tileX && v.tileZ == w.tileZ
    ensures v.dir == w.dir && v.life == w.life && v.baseSpeed == w.baseSpeed
    ensures |exits| == 0 ==> v.state == Turn && v.queuedDir == Some(Back(w.dir))
    ensures w.state == Walk && v.state == Turn && |exits| > 0 ==>
      exists e :: e in exits && e != Forward && v.queuedDir == Some(ExitDir(w.dir, e))
    ensures w.state == Walk && v.state != Turn ==> Forward in exits
  {
    if |exits| > 1 then
      var c := Decide(exits, d.roll, d.pick);
      if c != Forward then SetupTurn(w, ExitDir(w.dir, c), d.turnDur) else MaybeIdle(w, d.idle, d.idleDur)
    else if |exits| == 1 then
      if exits[0] != Forward then SetupTurn(w, ExitDir(w.dir, exits[0]), d.turnDur)
      else MaybeIdle(w, d.idle, d.idleDur)
    else SetupTurn(w, Back(w.dir), d.turnDur)
  }

  /** The walking axis has gone past the tile's edge margin. */
  predicate PastEdge(w: Walker) {
    RAbs(LocalProgress(w)) > ROAD_EDGE_MARGIN
  }

  /** The tile one CELL further along the walking axis, on the side of the progress. */
  function NextTile(w: Walker): (n: (int, int))
    ensures Abs(n.0 - w.tileX) + Abs(n.1 - w.tileZ) == CELL
    ensures w.axis == AxisX ==> n.1 == w.tileZ
    ensures w.axis == AxisZ ==> n.0 == w.tileX
    ensures (n.0 - w.tileX) + (n.1 - w.tileZ) > 0 <==> LocalProgress(w) > 0.0
  {
    var step := if LocalProgress(w) > 0.0 then CELL else -CELL;
    (if w.axis == AxisX then w.tileX + step else w.tileX,
     if w.axis == AxisZ then w.tileZ + step else w.tileZ)
  }

  /**
   * The edge check of a walking walker: past the margin, it either enters
   * the next tile (if that is a road) and decides there, or turns back and
   * is pulled back onto the margin.
   */
  function EdgeCheck(w: Walker, roads: Bag, d: Draws): (v: Walker)
    requires DrawsOk(d)
    ensures v.life == w.life && v.baseSpeed == w.baseSpeed
    ensures !(w.state == Walk && PastEdge(w)) ==> v == w
  {
    if w.state == Walk && PastEdge(w) then
      var lp := LocalProgress(w);
      var n := NextTile(w);
      if RoadAt(roads, n.0, n.1) then
        var entered := w.(tileX := n.0, tileZ := n.1);
        Enter(entered, Exits(roads, entered), d)
      else
        var back := SetupTurn(w, Back(w.dir), d.turnDur);
        if w.axis == AxisX then back.(px := w.tileX as real + Sign(lp) * ROAD_EDGE_MARGIN)
        else back.(pz := w.tileZ as real + Sign(lp) * ROAD_EDGE_MARGIN)
    else w
  }

  /** One walker's update of `updateWalkers(dt)`, ending with `life -= dt`. */
  function Tick(w: Walker, dt: real, roads: Bag, d: Draws): (v: Walker)
    requires DrawsOk(d)
    ensures v.life == w.life - dt
  {
    var m := EdgeCheck(Move(Timers(w, dt), dt), roads, d);
    m.(life := m.life - dt)
  }

  /** A walker stays in the array after its update iff its life is still positive. */
  predicate Survives(w: Walker) {
    w.life > 0.0
  }

  /** Time runs out: a walker with `life <= dt` does not survive its update. */
  lemma LifeRunsOut(w: Walker, dt: real, roads: Bag, d: Draws)
    requires DrawsOk(d)
    ensures Survives(Tick(w, dt, roads, d)) <==> w.life > dt
  {
  }

  /** While the invariant holds, a turn is complete once `turnT` reaches `turnDur`. */
  lemma TurnCompleteUnderInv(w: Walker, t: real)
    requires WalkerInv(w) && w.state == Turn
    ensures TurnComplete(t, w.turnDur) <==> t >= w.turnDur
  {
  }

  /**
   * Finishing a turn adopts the queued heading, recomputes axis and
   * perpendicular, and walks on at the base speed; an unfinished turn only
   * advances its timer.
   */
  lemma TurnFinishes(w: Walker, dt: real)
    requires WalkerInv(w) && w.state == Turn
    ensures var v := Timers(w, dt);
      if w.turnT + dt >= w.turnDur then
        && v.state == Walk && v.speed == w.baseSpeed
        && v.dir == w.queuedDir.value && v.axis == AxisOf(v.dir) && v.perp == Left(v.dir)
      else v == w.(turnT := w.turnT + dt)
  {
  }

  /** An idle pause ends once `idleT` reaches `idleDur`, restoring the base speed. */
  lemma IdleFinishes(w: Walker, dt: real)
    requires w.state == Idle
    ensures var v := Timers(w, dt);
      if w.idleT + dt >= w.idleDur then v == w.(idleT := w.idleT + dt, state := Walk, speed := w.baseSpeed)
      else v == w.(idleT := w.idleT + dt)
  {
  }

  /** Only a walking walker moves, by exactly `dir * speed * dt`. */
  lemma MovesOnlyWhenWalking(w: Walker, dt: real)
    ensures w.state != Walk ==> Move(w, dt) == w
    ensures w.state == Walk ==>
      Move(w, dt).px - w.px == DX(w.dir) as real * w.speed * dt
      && Move(w, dt).pz - w.pz == DZ(w.dir) as real * w.speed * dt
  {
  }

  /**
   * The dead end: past the margin with no road on the next tile, the walker
   * keeps its tile, turns towards `-dir`, and its axis coordinate is put
   * back at exactly the margin on the side it was heading.
   */
  lemma {:induction false} DeadEndTurnsBack(w: Walker, roads: Bag, d: Draws)
    requires DrawsOk(d) && WalkerInv(w) && w.state == Walk && PastEdge(w)
    requires var n := NextTile(w); !RoadAt(roads, n.0, n.1)
    ensures var v := EdgeCheck(w, roads, d);
      && v.state == Turn && v.queuedDir == Some(Back(w.dir))
      && v.tileX == w.tileX && v.tileZ == w.tileZ && v.dir == w.dir
      && LocalProgress(v) == (if LocalProgress(w) > 0.0 then ROAD_EDGE_MARGIN else -ROAD_EDGE_MARGIN)
  {
    var lp := LocalProgress(w);
    assert lp > 0.0 ==> Sign(lp) == 1.0;
    assert lp < 0.0 ==> Sign(lp) == -1.0;
  }

  /**
   * The intersection rule on entering a road tile. With no exit the walker
   * turns back; with one exit other than forward it turns into it; with
   * several, it turns exactly when the decision is not forward. It goes
   * idle only when it continues forward, and only on an idle roll below 0.05.
   */
  lemma {:induction false} IntersectionRule(w: Walker, roads: Bag, d: Draws)
    requires DrawsOk(d) && WalkerInv(w) && w.state == Walk && PastEdge(w)
    requires var n := NextTile(w); RoadAt(roads, n.0, n.1)
    ensures var n := NextTile(w);
      var entered := w.(tileX := n.0, tileZ := n.1);
      var exits := Exits(roads, entered);
      var v := EdgeCheck(w, roads, d);
      && v.tileX == n.0 && v.tileZ == n.1
      && (|exits| == 0 ==> v.state == Turn && v.queuedDir == Some(Back(w.dir)))
      && (|exits| == 1 && exits[0] != Forward ==>
            v.state == Turn && v.queuedDir == Some(ExitDir(w.dir, exits[0])))
      && (|exits| > 1 ==>
            var c := Decide(exits, d.roll, d.pick);
            (c != Forward ==> v.state == Turn && v.queuedDir == Some(ExitDir(w.dir, c)))
            && (c == Forward ==> v.state != Turn))
      && (v.state == Idle ==> Forward in exits && v.dir == w.dir && d.idle < 0.05)
      && (v.state == Walk ==> v == entered)
  {
    var n := NextTile(w);
    var entered := w.(tileX := n.0, tileZ := n.1);
    var exits := Exits(roads, entered);
    if |exits| > 1 {
      var c := Decide(exits, d.roll, d.pick);
      assert c == Forward ==> Forward in exits;
    }
  }

  lemma TimersKeepInv(w: Walker, dt: real)
    requires WalkerInv(w)
    ensures WalkerInv(Timers(w, dt))
  {
  }

  /** Starting a turn, or a pause, keeps the invariant of a walking walker. */
  lemma EnterKeepsInv(w: Walker, exits: seq<Exit>, d: Draws)
    requires DrawsOk(d) && WalkerInv(w) && w.state == Walk
    ensures WalkerInv(Enter(w, exits, d))
  {
    var v := Enter(w, exits, d);
    assert v.dir == w.dir && v.axis == w.axis && v.perp == w.perp && v.baseSpeed == w.baseSpeed;
  }

  lemma {:induction false} EdgeCheckKeepsInv(w: Walker, roads: Bag, d: Draws)
    requires DrawsOk(d) && WalkerInv(w)
    ensures WalkerInv(EdgeCheck(w, roads, d))
  {
    if w.state == Walk && PastEdge(w) {
      var n := NextTile(w);
      if RoadAt(roads, n.0, n.1) {
        var entered := w.(tileX := n.0, tileZ := n.1);
        EnterKeepsInv(entered, Exits(roads, entered), d);
      } else {
        var back := SetupTurn(w, Back(w.dir), d.turnDur);
        assert WalkerInv(back);
      }
    }
  }

  /** A walker update keeps the invariant. */
  lemma {:induction false} TickKeepsInv(w: Walker, dt: real, roads: Bag, d: Draws)
    requires DrawsOk(d) && WalkerInv(w)
    ensures WalkerInv(Tick(w, dt, roads, d))
  {
    TimersKeepInv(w, dt);
    EdgeCheckKeepsInv(Move(Timers(w, dt), dt), roads, d);
  }

  // Spawning

  /** `facingDirFromAngle(idx)`. */
  function FacingDir(idx: int): (d: Dir)
    ensures (DX(d), DZ(d)) == if idx == 0 then (0, 1) else if idx == 1 then (1, 0) else if idx == 2 then (0, -1) else (-1, 0)
  {
    if idx == 0 then PlusZ
    else if idx == 1 then PlusX
    else if idx == 2 then MinusZ
    else MinusX
  }

  /** The probe order of `chooseFrontRoad`: facing, +x, -x, +z, -z. */
  function FrontCandidates(idx: int): (c: seq<Dir>)
    ensures |c| == 5 && c[0] == FacingDir(idx)
  {
    [FacingDir(idx), PlusX, MinusX, PlusZ, MinusZ]
  }

  predicate FrontOpen(roads: Bag, wx: int, wz: int, d: Dir) {
    RoadAt(roads, wx + DX(d) * CELL, wz + DZ(d) * CELL)
  }

  /**
   * `chooseFrontRoad(wx, wz, angleIdx)`: the first candidate whose tile one
   * CELL away is a road, or None when no candidate is.
   */
  function ChooseFrontRoad(roads: Bag, wx: int, wz: int, idx: int): (r: Option<Dir>)
    ensures r.None? <==> forall i :: 0 <= i < 5 ==> !FrontOpen(roads, wx, wz, FrontCandidates(idx)[i])
    ensures r.Some? ==> FrontOpen(roads, wx, wz, r.value)
    ensures r.Some? ==>
      (exists i :: 0 <= i < 5 && r.value == FrontCandidates(idx)[i]
        && forall j :: 0 <= j < i ==> !FrontOpen(roads, wx, wz, FrontCandidates(idx)[j]))
  {
    var c := FrontCandidates(idx);
    if FrontOpen(roads, wx, wz, c[0]) then Some(c[0])
    else if FrontOpen(roads, wx, wz, c[1]) then Some(c[1])
    else if FrontOpen(roads, wx, wz, c[2]) then Some(c[2])
    else if FrontOpen(roads, wx, wz, c[3]) then Some(c[3])
    else if FrontOpen(roads, wx, wz, c[4]) then Some(c[4])
    else None
  }

  /**
   * The lot key's numbers are cell indices, not world coordinates, so the
   * probes of `chooseFrontRoad` look at the cells around `(ix / CELL,
   * iz / CELL)` rather than around the lot's own cell `(ix, iz)`.
   */
  lemma {:induction false} FrontProbeCells(roads: Bag, ix: int, iz: int, d: Dir)
    ensures FrontOpen(roads, ix, iz, d) <==> roads.Has(Key(ix / CELL + DX(d), iz / CELL + DZ(d)))
  {
    RoadAtKey(roads, ix + DX(d) * CELL, iz + DZ(d) * CELL);
    assert (ix + DX(d) * CELL) / CELL == ix / CELL + DX(d);
    assert (iz + DZ(d) * CELL) / CELL == iz / CELL + DZ(d);
  }

  /** The random draws of one `spawnWalker` call. */
  datatype SpawnDraws = SpawnDraws(bag: real, lot: real, side: real, speed: real, life: real)

  predicate SpawnDrawsOk(r: SpawnDraws) {
    Unit(r.bag) && Unit(r.lot) && Unit(r.side) && Unit(r.speed) && Unit(r.life)
  }

  /** The fresh walker record pushed for a lot at numbers (wx, wz) and a front road. */
  function NewWalker(wx: int, wz: int, front: Dir, r: SpawnDraws): (w: Walker)
    requires SpawnDrawsOk(r)
    ensures WalkerInv(w) && w.state == Walk && w.speed == w.baseSpeed
    ensures 0.6 <= w.speed < 1.2 && 45.0 <= w.life < 100.0
    ensures w.dir == (if r.side < 0.5 then Right(front) else Left(front))
    ensures w.tileX == wx + DX(front) * CELL && w.tileZ == wz + DZ(front) * CELL
    ensures w.px == wx as real + DX(front) as real * FRONT_OFFSET
    ensures w.pz == wz as real + DZ(front) as real * FRONT_OFFSET
  {
    var side := if r.side < 0.5 then Right(front) else Left(front);
    var speed := 0.6 + r.speed * 0.6;
    var life := 45.0 + r.life * 55.0;
    var axis := if DX(side) != 0 then AxisX else AxisZ;
    Walker(wx as real + DX(front) as real * FRONT_OFFSET, wz as real + DZ(front) as real * FRONT_OFFSET,
           side, speed, speed, life,
           wx + DX(front) * CELL, wz + DZ(front) * CELL, axis, Left(side),
           Walk, 0.0, 0.0, None, 0.0, 0.0)
  }

  /**
   * `spawnWalker()` as a decision: the walker it pushes, or None when the
   * cap is reached, the chosen bag is empty, no front road exists, or no
   * character model is ready. `count` is `walkers.length`.
   */
  function SpawnedWalker(count: nat, houses: Bag, buildings: Bag, roads: Bag, r: SpawnDraws, charReady: bool): (w: Option<Walker>)
    requires houses.Valid() && buildings.Valid() && SpawnDrawsOk(r)
    ensures count >= MAX_WALKERS ==> w.None?
    ensures (if r.bag < 0.6 then houses else buildings).Size() == 0 ==> w.None?
    ensures !charReady ==> w.None?
    ensures w.Some? ==>
      (WalkerInv(w.value) && w.value.state == Walk
       && 0.6 <= w.value.speed < 1.2 && 45.0 <= w.value.life < 100.0
       && RoadAt(roads, w.value.tileX, w.value.tileZ))
  {
    if count >= MAX_WALKERS then None
    else
      var bag := if r.bag < 0.6 then houses else buildings;
      if bag.Size() == 0 then None
      else
        var lot := bag.EntryAt(PickIndex(r.lot, bag.Size()));
        var nums := KeyNumbers(lot.0);
        match ChooseFrontRoad(roads, nums.0, nums.1, lot.1.data.angle)
        case None => None
        case Some(front) =>
          assert FrontOpen(roads, nums.0, nums.1, front);
          if !charReady then None
          else
            var w := NewWalker(nums.0, nums.1, front, r);
            assert w.tileX == nums.0 + DX(front) * CELL && w.tileZ == nums.1 + DZ(front) * CELL;
            Some(w)
  }

  /**
   * A spawn that succeeds uses a lot of the chosen bag and the
   * highest-priority open front of that lot.
   */
  lemma SpawnUsesLot(count: nat, houses: Bag, buildings: Bag, roads: Bag, r: SpawnDraws, charReady: bool)
    requires houses.Valid() && buildings.Valid() && SpawnDrawsOk(r)
    requires SpawnedWalker(count, houses, buildings, roads, r, charReady).Some?
    ensures var bag := if r.bag < 0.6 then houses else buildings;
      exists k :: bag.Has(k) &&
        var front := ChooseFrontRoad(roads, k.x, k.z, bag.Get(k).data.angle);
        front.Some? && SpawnedWalker(count, houses, buildings, roads, r, charReady)
          == Some(NewWalker(k.x, k.z, front.value, r))
  {
    var bag := if r.bag < 0.6 then houses else buildings;
    var lot := bag.EntryAt(PickIndex(r.lot, bag.Size()));
    assert KeyNumbers(lot.0) == (lot.0.x, lot.0.z);
  }
}
