/**
 * The module state of npc.ts: the `walkers` array and the time of the
 * next spawn attempt, with `spawnWalker` and `updateWalkers`. The clock
 * reading `performance.now()` is the parameter `now`; every random draw
 * is a parameter.
 */
module Npc {
  import opened Wrappers
  import opened JsMap
  import opened Placement
  import opened Walkers

  /**
   * What the backward update loop leaves of `ws`: each walker updated
   * with its own draws, those whose life ran out removed, the rest in
   * their original order.
   */
  function Survivors(ws: seq<Walker>, ds: seq<Draws>, dt: real, roads: Bag): (r: seq<Walker>)
    requires |ds| == |ws| && forall i :: 0 <= i < |ds| ==> DrawsOk(ds[i])
    ensures |r| <= |ws|
    ensures forall v :: v in r ==> Survives(v)
  {
    if ws == [] then []
    else
      var v := Tick(ws[0], dt, roads, ds[0]);
      (if Survives(v) then [v] else []) + Survivors(ws[1..], ds[1..], dt, roads)
  }

  /** Walkers updated apart keep their order: the survivors of a concatenation concatenate. */
  lemma {:induction false} SurvivorsAppend(a: seq<Walker>, b: seq<Walker>, da: seq<Draws>, db: seq<Draws>, dt: real, roads: Bag)
    requires |da| == |a| && forall i :: 0 <= i < |da| ==> DrawsOk(da[i])
    requires |db| == |b| && forall i :: 0 <= i < |db| ==> DrawsOk(db[i])
    ensures Survivors(a + b, da + db, dt, roads) == Survivors(a, da, dt, roads) + Survivors(b, db, dt, roads)
  {
    if a == [] {
      assert a + b == b && da + db == db;
    } else {
      assert (a + b)[0] == a[0] && (da + db)[0] == da[0];
      assert (a + b)[1..] == a[1..] + b;
      assert (da + db)[1..] == da[1..] + db;
      SurvivorsAppend(a[1..], b, da[1..], db, dt, roads);
    }
  }

  /** The number of walkers in `ws` whose life exceeds `dt`. */
  function LongerLived(ws: seq<Walker>, dt: real): nat {
    if ws == [] then 0 else (if ws[0].life > dt then 1 else 0) + LongerLived(ws[1..], dt)
  }

  /**
   * Exactly the walkers whose life exceeds `dt` survive, each as its own
   * update.
   */
  lemma {:induction false} SurvivorsCount(ws: seq<Walker>, ds: seq<Draws>, dt: real, roads: Bag)
    requires |ds| == |ws| && forall i :: 0 <= i < |ds| ==> DrawsOk(ds[i])
    ensures |Survivors(ws, ds, dt, roads)| == LongerLived(ws, dt)
    ensures forall v :: v in Survivors(ws, ds, dt, roads) ==>
      exists i :: 0 <= i < |ws| && ws[i].life > dt && v == Tick(ws[i], dt, roads, ds[i])
  {
    if ws != [] {
      SurvivorsCount(ws[1..], ds[1..], dt, roads);
      LifeRunsOut(ws[0], dt, roads, ds[0]);
      forall v | v in Survivors(ws, ds, dt, roads)
        ensures exists i :: 0 <= i < |ws| && ws[i].life > dt && v == Tick(ws[i], dt, roads, ds[i])
      {
        if v !in Survivors(ws[1..], ds[1..], dt, roads) {
          assert v == Tick(ws[0], dt, roads, ds[0]);
        } else {
          var j :| 0 <= j < |ws[1..]| && ws[1..][j].life > dt && v == Tick(ws[1..][j], dt, roads, ds[1..][j]);
          assert ws[j + 1] == ws[1..][j] && ds[j + 1] == ds[1..][j];
        }
      }
    }
  }

  /** Every survivor keeps the walker invariant. */
  lemma {:induction false} SurvivorsKeepInv(ws: seq<Walker>, ds: seq<Draws>, dt: real, roads: Bag)
    requires |ds| == |ws| && forall i :: 0 <= i < |ds| ==> DrawsOk(ds[i])
    requires forall i :: 0 <= i < |ws| ==> WalkerInv(ws[i])
    ensures forall v :: v in Survivors(ws, ds, dt, roads) ==> WalkerInv(v)
  {
    if ws != [] {
      TickKeepsInv(ws[0], dt, roads, ds[0]);
      SurvivorsKeepInv(ws[1..], ds[1..], dt, roads);
    }
  }

  /** The walker list after a spawn attempt. */
  function AfterSpawn(ws: seq<Walker>, houses: Bag, buildings: Bag, roads: Bag, r: SpawnDraws, charReady: bool): (r': seq<Walker>)
    requires houses.Valid() && buildings.Valid() && SpawnDrawsOk(r)
    ensures |ws| >= MAX_WALKERS ==> r' == ws
    ensures |ws| <= |r'| <= |ws| + 1 && r'[..|ws|] == ws
  {
    match SpawnedWalker(|ws|, houses, buildings, roads, r, charReady)
    case None => ws
    case Some(w) => ws + [w]
  }

  class NpcState {
    var walkers: seq<Walker>
    var nextWalkerTime: real

    /** At most MAX_WALKERS walkers, each satisfying the walker invariant. */
    ghost predicate Valid()
      reads this
    {
      |walkers| <= MAX_WALKERS && forall i :: 0 <= i < |walkers| ==> WalkerInv(walkers[i])
    }

    /** Module initialisation: no walkers, first spawn attempt three seconds from `now`. */
    constructor (now: real)
      ensures Valid() && walkers == [] && nextWalkerTime == now + 3000.0
    {
      walkers := [];
      nextWalkerTime := now + 3000.0;
    }

    /** `spawnWalker()`: pushes the walker the spawn rules produce, if any. */
    method SpawnWalker(houses: Bag, buildings: Bag, roads: Bag, r: SpawnDraws, charReady: bool)
      requires Valid() && houses.Valid() && buildings.Valid() && SpawnDrawsOk(r)
      modifies this`walkers
      ensures Valid()
      ensures walkers == AfterSpawn(old(walkers), houses, buildings, roads, r, charReady)
    {
      var w := SpawnedWalker(|walkers|, houses, buildings, roads, r, charReady);
      if w.Some? {
        walkers := walkers + [w.value];
      }
    }

    /** The removal loop run when there are no houses: splices every walker out, last first. */
    method RemoveAll()
      modifies this`walkers
      ensures walkers == []
    {
      ghost var ws := walkers;
      var i := |walkers| - 1;
      while i >= 0
        invariant -1 <= i < |ws|
        invariant walkers == ws[..i + 1]
      {
        walkers := walkers[..i] + walkers[i + 1..];
        i := i - 1;
      }
    }

    /**
     * The main loop of `updateWalkers`: from the last walker to the first,
     * update each with its draws and splice it out if its life ran out.
     */
    method TickAll(dt: real, roads: Bag, ds: seq<Draws>)
      requires |ds| == |walkers| && forall i :: 0 <= i < |ds| ==> DrawsOk(ds[i])
      modifies this`walkers
      ensures walkers == Survivors(old(walkers), ds, dt, roads)
    {
      ghost var ws := walkers;
      var i := |walkers| - 1;
      while i >= 0
        invariant -1 <= i < |ws|
        invariant walkers == ws[..i + 1] + Survivors(ws[i + 1..], ds[i + 1..], dt, roads)
      {
        assert ws[i..][1..] == ws[i + 1..] && ds[i..][1..] == ds[i + 1..];
        assert walkers[i] == ws[i];
        var w := Tick(walkers[i], dt, roads, ds[i]);
        if Survives(w) {
          walkers := walkers[..i] + [w] + walkers[i + 1..];
        } else {
          walkers := walkers[..i] + walkers[i + 1..];
        }
        assert ws[..i + 1][..i] == ws[..i];
        i := i - 1;
      }
      assert ws[0..] == ws && ds[0..] == ds;
    }

    /**
     * `updateWalkers(dt)`. With no houses, every walker is removed and
     * nothing else happens; otherwise a non-positive `dt` changes nothing;
     * otherwise each walker is updated with its draws, from the last to the
     * first, those whose life ran out are spliced out, and, when `now` has
     * reached `nextWalkerTime`, one spawn is attempted and the next one
     * scheduled 1200 to 5000 ms later.
     */
    method UpdateWalkers(dt: real, now: real, houses: Bag, buildings: Bag, roads: Bag,
                         ds: seq<Draws>, spawn: SpawnDraws, nextRoll: real, charReady: bool)
      requires Valid() && houses.Valid() && buildings.Valid()
      requires |ds| == |walkers| && forall i :: 0 <= i < |ds| ==> DrawsOk(ds[i])
      requires SpawnDrawsOk(spawn) && Unit(nextRoll)
      modifies this
      ensures Valid()
      ensures houses.Size() == 0 && |old(walkers)| > 0 ==>
        walkers == [] && nextWalkerTime == old(nextWalkerTime)
      ensures !(houses.Size() == 0 && |old(walkers)| > 0) && dt <= 0.0 ==>
        walkers == old(walkers) && nextWalkerTime == old(nextWalkerTime)
      ensures !(houses.Size() == 0 && |old(walkers)| > 0) && dt > 0.0 ==>
        var survivors := Survivors(old(walkers), ds, dt, roads);
        if now >= old(nextWalkerTime) then
          walkers == AfterSpawn(survivors, houses, buildings, roads, spawn, charReady)
          && nextWalkerTime == now + 1200.0 + nextRoll * 3800.0
        else walkers == survivors && nextWalkerTime == old(nextWalkerTime)
    {
      if houses.Size() == 0 && |walkers| > 0 {
        RemoveAll();
        return;
      }
      if dt <= 0.0 {
        return;
      }
      SurvivorsKeepInv(walkers, ds, dt, roads);
      TickAll(dt, roads, ds);
      if now >= nextWalkerTime {
        SpawnWalker(houses, buildings, roads, spawn, charReady);
        nextWalkerTime := now + 1200.0 + nextRoll * 3800.0;
      }
    }
  }
}
