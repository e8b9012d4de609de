/**
 * The first, road-only client (client/main.js): tiles of size 1, pointer
 * positions snapped to tile centres, one `roads` map keyed by the centre,
 * a fixed road price, and an erase that gives back the recorded cost. The
 * road prefab's loading is the parameter `prefabReady`; the meshes, the
 * scale and the raycast that picks the erased object are left out.
 */
module ClientMain {
  import opened Wrappers
  import opened JsMap

  /** `TILE_SIZE` of this client. */
  const TILE_SIZE: real := 1.0
  /** `ROAD_COST`. */
  const ROAD_COST: int := 200
  /** `let money = 200000`. */
  const START_MONEY: int := 200000

  /**
   * `snap(v)` on one axis: `Math.floor(v / TILE_SIZE) * TILE_SIZE + TILE_SIZE / 2`,
   * the centre of the tile holding `v`.
   */
  function Snap(v: real): (c: real)
    ensures c - TILE_SIZE / 2.0 <= v < c + TILE_SIZE / 2.0
    ensures (c - TILE_SIZE / 2.0).Floor as real == c - TILE_SIZE / 2.0
  {
    (v / TILE_SIZE).Floor as real * TILE_SIZE + TILE_SIZE / 2.0
  }

  /** Two positions snap to the same centre exactly when they lie in the same tile. */
  lemma {:induction false} SnapSameTile(v: real, w: real)
    ensures Snap(v) == Snap(w) <==> v.Floor == w.Floor
  {
    assert Snap(v) == v.Floor as real + 0.5 && Snap(w) == w.Floor as real + 0.5;
  }

  /** A tile centre snaps to itself. */
  lemma {:induction false} SnapIdempotent(v: real)
    ensures Snap(Snap(v)) == Snap(v)
  {
    var c := Snap(v);
    assert c == v.Floor as real + 0.5;
    assert c.Floor == v.Floor;
  }

  /** `keyFromCenter(wx, wz)`: the point itself, rendered as `${wx}:${wz}`. */
  datatype PointKey = PointKey(x: real, z: real)

  /** A placed road clone: its position and `userData.cost` (None when absent). */
  datatype Road = Road(x: real, z: real, cost: Option<int>)

  type Roads = OMap<PointKey, Road>

  /** The state `place` and `eraseAtPointer` change. */
  datatype State = State(money: int, roads: Roads) {
    /**
     * Money never negative; every road sits at its key and recorded the
     * road price.
     */
    ghost predicate Valid() {
      money >= 0 && roads.Valid()
      && forall k :: k in roads.entries ==>
           roads.entries[k] == Road(k.x, k.z, Some(ROAD_COST))
    }
  }

  /**
   * `place(wx, wz)`: nothing without the prefab, with less than ROAD_COST
   * or on a taken key; otherwise one new road at the point and ROAD_COST
   * less money.
   */
  function PlaceRoad(s: State, wx: real, wz: real, prefabReady: bool): (r: State)
    requires s.Valid()
    ensures r.Valid()
    ensures r != s <==> prefabReady && s.money >= ROAD_COST && !s.roads.Has(PointKey(wx, wz))
    ensures r != s ==>
      r.money == s.money - ROAD_COST && r.roads.Size() == s.roads.Size() + 1
      && r.roads.entries == s.roads.entries[PointKey(wx, wz) := Road(wx, wz, Some(ROAD_COST))]
  {
    var k := PointKey(wx, wz);
    if !prefabReady || s.money < ROAD_COST || s.roads.Has(k) then s
    else State(s.money - ROAD_COST, s.roads.Set(k, Road(wx, wz, Some(ROAD_COST))))
  }

  /**
   * The tail of `eraseAtPointer` once the pointer has picked `root`: find
   * its key; if found, delete it and give back `cost ?? ROAD_COST`.
   */
  function EraseRoad(s: State, root: Road): (r: State)
    requires s.Valid()
    ensures r.Valid()
    ensures FindKey(s.roads, root).None? ==> r == s
    ensures FindKey(s.roads, root).Some? ==>
      r.roads.entries == s.roads.entries - {FindKey(s.roads, root).value}
      && r.roads.order == Without(s.roads.order, FindKey(s.roads, root).value)
      && r.roads.Size() == s.roads.Size() - 1
      && r.money == s.money + ROAD_COST
  {
    match FindKey(s.roads, root)
    case None => s
    case Some(k) => State(s.money + root.cost.GetOr(ROAD_COST), s.roads.Delete(k))
  }

  /** Matching by value finds the one key that holds a road, as identity does in the source. */
  lemma FindsOwnKey(s: State, k: PointKey)
    requires s.Valid() && s.roads.Has(k)
    ensures FindKey(s.roads, s.roads.entries[k]) == Some(k)
  {
    var r := FindKey(s.roads, s.roads.entries[k]);
    assert r.Some?;
    assert s.roads.entries[r.value] == Road(r.value.x, r.value.z, Some(ROAD_COST));
  }

  /** Erasing the road just placed gives back the state before, money and key order included. */
  lemma {:induction false} PlaceThenEraseRestores(s: State, wx: real, wz: real, prefabReady: bool)
    requires s.Valid() && PlaceRoad(s, wx, wz, prefabReady) != s
    ensures EraseRoad(PlaceRoad(s, wx, wz, prefabReady), Road(wx, wz, Some(ROAD_COST))) == s
  {
    var k := PointKey(wx, wz);
    var p := PlaceRoad(s, wx, wz, prefabReady);
    assert p.roads.entries[k] == Road(wx, wz, Some(ROAD_COST));
    FindsOwnKey(p, k);
    SetThenDelete(s.roads, k, Road(wx, wz, Some(ROAD_COST)));
  }

  /** The module state of client/main.js. */
  class Client {
    var money: int
    var roads: Roads

    function Current(): State
      reads this
    {
      State(money, roads)
    }

    constructor ()
      ensures Current().Valid() && money == START_MONEY && roads == Empty()
    {
      money := START_MONEY;
      roads := Empty();
    }

    /** `place(wx, wz)`. */
    method Place(wx: real, wz: real, prefabReady: bool)
      requires Current().Valid()
      modifies this
      ensures Current() == PlaceRoad(old(Current()), wx, wz, prefabReady)
    {
      if !prefabReady || money < ROAD_COST {
        return;
      }
      var id := PointKey(wx, wz);
      if roads.Has(id) {
        return;
      }
      var obj := Road(wx, wz, Some(ROAD_COST));
      roads := roads.Set(id, obj);
      money := money - ROAD_COST;
    }

    /** The tail of `eraseAtPointer(event)`, from the key search on. */
    method EraseAtPointer(root: Road)
      requires Current().Valid()
      modifies this
      ensures Current() == EraseRoad(old(Current()), root)
    {
      var hitKey := SearchEntries(roads, root);
      if hitKey.None? {
        return;
      }
      roads := roads.Delete(hitKey.value);
      money := money + root.cost.GetOr(ROAD_COST);
    }
  }
}
