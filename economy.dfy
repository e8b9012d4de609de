/**
 * The placement economy shared by client/src/main.ts and client/src/main.js:
 * three occupancy maps (roads, houses, buildings) keyed by the snapped
 * world coordinates themselves, the snap that rounds to the nearest cell
 * corner, the ordered checks a placement goes through, the search that
 * finds the map entry of an erased object, and the refund rules.
 */
module Economy {
  import opened Wrappers
  import opened Constants
  import opened TileKeys
  import opened JsMap
  import opened Placement

  /** The three things the monolithic clients place. */
  datatype Kind = RoadKind | HouseKind | BuildingKind

  /** The `kind` string written into `userData`. */
  function KindString(k: Kind): (s: string)
    ensures s == ROAD_KIND || s == HOUSE_KIND || s == BUILDING_KIND
  {
    match k
    case RoadKind => ROAD_KIND
    case HouseKind => HOUSE_KIND
    case BuildingKind => BUILDING_KIND
  }

  /** The price of one placement of `k`. */
  function Cost(k: Kind): (c: int)
    ensures c > 0
  {
    match k
    case RoadKind => ROAD_COST
    case HouseKind => HOUSE_COST
    case BuildingKind => BUILDING_COST
  }

  lemma KindStringInjective(a: Kind, b: Kind)
    ensures KindString(a) == KindString(b) <==> a == b
  {
    assert ROAD_KIND[0] == 'r' && HOUSE_KIND[0] == 'h' && BUILDING_KIND[0] == 'b';
  }

  /** The money both clients start with. */
  const START_MONEY: int := 200000

  /** `piece === "I" ? "L" : piece === "L" ? "X" : "I"`. */
  function NextPiece(p: Piece): (q: Piece)
    ensures q != p
  {
    match p
    case I => L
    case L => X
    case X => I
  }

  /** Three presses of the cycle key come back to the starting piece, and every piece is reached. */
  lemma PieceCycle(p: Piece)
    ensures NextPiece(NextPiece(NextPiece(p))) == p
    ensures NextPiece(NextPiece(p)) != p
  {
  }

  /** `Math.round(x)`: the nearest integer, halves rounded up. */
  function JsRound(x: real): (n: int)
    ensures n as real - 0.5 <= x < n as real + 0.5
  {
    (x + 0.5).Floor
  }

  /** The rounding of `x` is the one integer within half a unit below and above it. */
  lemma JsRoundUnique(x: real, n: int)
    requires n as real - 0.5 <= x < n as real + 0.5
    ensures JsRound(x) == n
  {
    FloorUnique(x + 0.5, n);
  }

  /** `Math.round(v / CELL) * CELL`: one coordinate of `snapToCell`. */
  function SnapToCell(v: real): (s: int)
    ensures s % CELL == 0
    ensures s as real - (CELL / 2) as real <= v < s as real + (CELL / 2) as real
  {
    JsRound(v / CELL as real) * CELL
  }

  /** No multiple of CELL is nearer to `v` than its snap. */
  lemma {:induction false} SnapIsNearest(v: real, m: int)
    requires m % CELL == 0
    ensures RAbsDiff(v, SnapToCell(v) as real) <= RAbsDiff(v, m as real)
  {
    var s := SnapToCell(v);
    assert s as real - 3.0 <= v < s as real + 3.0;
    assert RAbsDiff(v, s as real) <= 3.0;
    if m < s {
      assert m <= s - 6 by {
        assert (s - m) % 6 == 0;
      }
      assert RAbsDiff(v, m as real) >= 3.0;
    } else if m > s {
      assert m >= s + 6 by {
        assert (m - s) % 6 == 0;
      }
      assert RAbsDiff(v, m as real) >= 3.0;
    }
  }

  function RAbsDiff(a: real, b: real): real {
    if a >= b then a - b else b - a
  }

  /** Snapping a snapped coordinate leaves it where it is. */
  lemma {:induction false} SnapIdempotent(v: real)
    ensures SnapToCell(SnapToCell(v) as real) == SnapToCell(v)
  {
    var s := SnapToCell(v);
    var n := s / CELL;
    assert s == n * CELL;
    assert s as real / CELL as real == n as real;
    JsRoundUnique(s as real / CELL as real, n);
  }

  /** `keyFromCenter(wx, wz)`: the coordinates themselves, as `${wx}:${wz}`. */
  function KeyAt(wx: int, wz: int): (k: Key)
    ensures KeyString(k) == IntString(wx) + ":" + IntString(wz)
  {
    Key(wx, wz)
  }

  /** Two points share a key string exactly when they are the same point. */
  lemma KeyAtInjective(a: int, b: int, c: int, d: int)
    ensures KeyString(KeyAt(a, b)) == KeyString(KeyAt(c, d)) <==> a == c && b == d
  {
    KeyStringInjective(KeyAt(a, b), KeyAt(c, d));
  }

  /** The two keys are one CELL apart along exactly one axis. */
  predicate CellNeighbours(a: Key, b: Key) {
    (a.z == b.z && (a.x == b.x + CELL || a.x == b.x - CELL))
    || (a.x == b.x && (a.z == b.z + CELL || a.z == b.z - CELL))
  }

  /** `hasAdjacentRoad(wx, wz)`: a road one CELL away along x or z. The point itself is not consulted. */
  function HasAdjacentRoadAt(roads: Bag, wx: int, wz: int): (r: bool)
    ensures r <==> exists k :: roads.Has(k) && CellNeighbours(k, KeyAt(wx, wz))
  {
    var c := KeyAt(wx, wz);
    assert forall k :: CellNeighbours(k, c) ==>
      k in {KeyAt(wx + CELL, wz), KeyAt(wx - CELL, wz), KeyAt(wx, wz + CELL), KeyAt(wx, wz - CELL)};
    roads.Has(KeyAt(wx + CELL, wz))
    || roads.Has(KeyAt(wx - CELL, wz))
    || roads.Has(KeyAt(wx, wz + CELL))
    || roads.Has(KeyAt(wx, wz - CELL))
  }

  /** Every object sits at the point its key names and records a non-negative cost. */
  ghost predicate AtKeys(b: Bag) {
    forall k :: k in b.entries ==>
      b.entries[k].x == k.x as real && b.entries[k].z == k.z as real && b.entries[k].data.cost >= 0
  }

  /** The three maps of a monolithic client. */
  datatype Maps = Maps(roads: Bag, houses: Bag, buildings: Bag) {

    /**
     * Each map well formed with its objects at their keys, and no key in
     * two maps.
     */
    ghost predicate Valid() {
      roads.Valid() && houses.Valid() && buildings.Valid()
      && AtKeys(roads) && AtKeys(houses) && AtKeys(buildings)
      && (forall k :: !(roads.Has(k) && houses.Has(k)))
      && (forall k :: !(roads.Has(k) && buildings.Has(k)))
      && (forall k :: !(houses.Has(k) && buildings.Has(k)))
    }

    /** `roads.has(id) || houses.has(id) || buildings.has(id)`. */
    predicate Occupied(k: Key) {
      roads.Has(k) || houses.Has(k) || buildings.Has(k)
    }

    /** The map objects of kind `k` are stored in. */
    function Get(k: Kind): Bag {
      match k
      case RoadKind => roads
      case HouseKind => houses
      case BuildingKind => buildings
    }

    /** The same maps, with the one for `k` replaced by `b`. */
    function With(k: Kind, b: Bag): (r: Maps)
      ensures r.Get(k) == b
      ensures forall j :: j != k ==> r.Get(j) == Get(j)
    {
      match k
      case RoadKind => this.(roads := b)
      case HouseKind => this.(houses := b)
      case BuildingKind => this.(buildings := b)
    }
  }

  /** Three empty maps. */
  function NoMaps(): (m: Maps)
    ensures m.Valid()
    ensures forall k :: !m.Occupied(k)
  {
    Maps(Empty(), Empty(), Empty())
  }

  /**
   * `buildPlacedObject(kind)`: a clone of the house or building prefab or
   * of the current road piece, priced by its kind; None while that prefab
   * is not loaded. The object is then moved to (`wx`, `wz`).
   */
  function BuildAt(kind: Kind, piece: Piece, angle: int, loaded: set<ModelKey>, wx: int, wz: int): (r: Option<Placed>)
    requires 0 <= angle < 4
    ensures r.None? <==> ModelFor(KindString(kind), piece) !in loaded
    ensures r.Some? ==> r.value.data == UserData(Cost(kind), KindString(kind), piece, angle, false)
    ensures r.Some? ==> r.value.model == ModelFor(KindString(kind), piece) && r.value.yaw == ANG[angle]
    ensures r.Some? ==> r.value.x == wx as real && r.value.z == wz as real
  {
    match BuildPlacedObject(KindString(kind), Cost(kind), piece, angle, loaded)
    case None => None
    case Some(o) => Some(o.(x := wx as real, z := wz as real))
  }

  /** What a place function does: fail with an error string, or store `obj` under `key`. */
  datatype Outcome = Refused(err: string) | Accepted(key: Key, obj: Placed)

  /**
   * The checks of `placeRoad`, `placeHouse` and `placeBuilding`, in their
   * order: money, then occupancy in any of the three maps, then (houses and
   * buildings only) a neighbouring road, then the prefab.
   */
  function PlaceOutcome(money: int, m: Maps, kind: Kind, wx: int, wz: int,
                        piece: Piece, angle: int, loaded: set<ModelKey>): (o: Outcome)
    requires 0 <= angle < 4
    ensures o.Refused? ==> o.err in {"money", "occupied", "no_road", "model"}
    ensures o == Refused("money") <==> money < Cost(kind)
    ensures o == Refused("occupied") <==> money >= Cost(kind) && m.Occupied(KeyAt(wx, wz))
    ensures o == Refused("no_road") <==>
      money >= Cost(kind) && !m.Occupied(KeyAt(wx, wz)) && kind != RoadKind && !HasAdjacentRoadAt(m.roads, wx, wz)
    ensures o.Accepted? ==>
      money >= Cost(kind) && !m.Occupied(o.key) && o.key == KeyAt(wx, wz)
      && (kind == RoadKind || HasAdjacentRoadAt(m.roads, wx, wz))
      && BuildAt(kind, piece, angle, loaded, wx, wz) == Some(o.obj)
  {
    if money < Cost(kind) then Refused("money")
    else if m.Occupied(KeyAt(wx, wz)) then Refused("occupied")
    else if kind != RoadKind && !HasAdjacentRoadAt(m.roads, wx, wz) then Refused("no_road")
    else match BuildAt(kind, piece, angle, loaded, wx, wz)
      case None => Refused("model")
      case Some(obj) => Accepted(KeyAt(wx, wz), obj)
  }

  /** The maps after an accepted placement: the object stored in its kind's map. */
  function AfterPlace(m: Maps, kind: Kind, key: Key, obj: Placed): Maps
    requires m.Valid()
  {
    m.With(kind, m.Get(kind).Set(key, obj))
  }

  /**
   * An accepted placement keeps the maps valid and adds exactly one entry:
   * the new key, in its kind's map only; every other entry stays.
   */
  lemma PlaceKeepsValid(money: int, m: Maps, kind: Kind, wx: int, wz: int,
                        piece: Piece, angle: int, loaded: set<ModelKey>)
    requires m.Valid() && 0 <= angle < 4
    requires PlaceOutcome(money, m, kind, wx, wz, piece, angle, loaded).Accepted?
    ensures var o := PlaceOutcome(money, m, kind, wx, wz, piece, angle, loaded);
      var m' := AfterPlace(m, kind, o.key, o.obj);
      m'.Valid()
      && m'.Get(kind).Size() == m.Get(kind).Size() + 1
      && m'.Get(kind).entries == m.Get(kind).entries[o.key := o.obj]
      && (forall j :: j != kind ==> m'.Get(j) == m.Get(j))
      && money - Cost(kind) >= 0
  {
    var o := PlaceOutcome(money, m, kind, wx, wz, piece, angle, loaded);
    StoreKeepsValid(m, kind, o.key, o.obj);
  }

  /** Storing an object at its own free key, with a non-negative cost, keeps the maps valid. */
  lemma StoreKeepsValid(m: Maps, kind: Kind, key: Key, obj: Placed)
    requires m.Valid() && !m.Occupied(key)
    requires obj.x == key.x as real && obj.z == key.z as real && obj.data.cost >= 0
    ensures var m' := AfterPlace(m, kind, key, obj);
      m'.Valid()
      && m'.Get(kind).Size() == m.Get(kind).Size() + 1
      && m'.Get(kind).entries == m.Get(kind).entries[key := obj]
      && (forall j :: j != kind ==> m'.Get(j) == m.Get(j))
  {
    var m' := AfterPlace(m, kind, key, obj);
    var b := m.Get(kind).Set(key, obj);
    assert m'.Get(kind) == b;
    assert AtKeys(b) by {
      assert AtKeys(m.Get(kind));
    }
    match kind
    case RoadKind => assert m' == m.(roads := b);
    case HouseKind => assert m' == m.(houses := b);
    case BuildingKind => assert m' == m.(buildings := b);
  }

  /** Where an erased object was found: its kind's map and its key. */
  datatype Hit = Hit(kind: Kind, key: Key)

  /** The search of `eraseAtPointer`: roads first, then houses, then buildings. */
  function LocateRoot(m: Maps, root: Placed): (h: Option<Hit>)
    requires m.Valid()
    ensures h.Some? ==> m.Get(h.value.kind).Has(h.value.key) && m.Get(h.value.kind).entries[h.value.key] == root
  {
    match FindKey(m.roads, root)
    case Some(k) => Some(Hit(RoadKind, k))
    case None =>
      match FindKey(m.houses, root)
      case Some(k) => Some(Hit(HouseKind, k))
      case None =>
        match FindKey(m.buildings, root)
        case Some(k) => Some(Hit(BuildingKind, k))
        case None => None
  }

  /**
   * The source matches by object identity. Because every object sits at its
   * own key and no key is in two maps, matching by value finds the one
   * entry that holds the object.
   */
  lemma {:induction false} LocateFindsOwner(m: Maps, kind: Kind, k: Key)
    requires m.Valid() && m.Get(kind).Has(k)
    ensures LocateRoot(m, m.Get(kind).entries[k]) == Some(Hit(kind, k))
  {
    var root := m.Get(kind).entries[k];
    assert root.x == k.x as real && root.z == k.z as real;
    match FindKey(m.roads, root)
    case Some(r) =>
      assert r.x as real == root.x && r.z as real == root.z;
      assert r == k;
    case None =>
      match FindKey(m.houses, root)
      case Some(r) =>
        assert r.x as real == root.x && r.z as real == root.z;
        assert r == k;
      case None =>
        match FindKey(m.buildings, root)
        case Some(r) =>
          assert r.x as real == root.x && r.z as real == root.z;
          assert r == k;
        case None =>
          assert false;
  }

  /** The maps after `bag.delete(hitKey)`. */
  function AfterErase(m: Maps, h: Hit): (m': Maps)
    requires m.Valid()
  {
    m.With(h.kind, m.Get(h.kind).Delete(h.key))
  }

  /** An object found in valid maps recorded a non-negative cost. */
  lemma LocatedCost(m: Maps, root: Placed)
    requires m.Valid() && LocateRoot(m, root).Some?
    ensures root.data.cost >= 0
  {
    var h := LocateRoot(m, root).value;
    assert m.Get(h.kind).entries[h.key] == root;
    match h.kind
    case RoadKind => assert AtKeys(m.roads);
    case HouseKind => assert AtKeys(m.houses);
    case BuildingKind => assert AtKeys(m.buildings);
  }

  /** Erasing keeps the maps valid, frees the key everywhere and keeps every other entry. */
  lemma EraseKeepsValid(m: Maps, h: Hit)
    requires m.Valid() && m.Get(h.kind).Has(h.key)
    ensures AfterErase(m, h).Valid()
    ensures !AfterErase(m, h).Occupied(h.key)
    ensures forall k :: k != h.key ==> (AfterErase(m, h).Occupied(k) <==> m.Occupied(k))
    ensures AfterErase(m, h).Get(h.kind).Size() == m.Get(h.kind).Size() - 1
  {
    var m' := AfterErase(m, h);
    assert m'.Get(h.kind).entries == m.Get(h.kind).entries - {h.key};
    match h.kind
    case RoadKind => assert m'.houses == m.houses && m'.buildings == m.buildings;
    case HouseKind => assert m'.roads == m.roads && m'.buildings == m.buildings;
    case BuildingKind => assert m'.roads == m.roads && m'.houses == m.houses;
  }

  /**
   * main.ts's refund: the full recorded cost, except half of it, rounded
   * up, for houses and buildings. `RefundIsRounded` shows that this is the
   * code's `Math.round(cost * 0.5)`.
   */
  function RefundTs(data: UserData): (r: int)
    ensures data.cost >= 0 ==> 0 <= r <= data.cost
    ensures data.kind == HOUSE_KIND || data.kind == BUILDING_KIND ==> data.cost <= 2 * r <= data.cost + 1
    ensures data.kind != HOUSE_KIND && data.kind != BUILDING_KIND ==> r == data.cost
  {
    if data.kind == HOUSE_KIND || data.kind == BUILDING_KIND then (data.cost + 1) / 2
    else data.cost
  }

  /** Half a cost, rounded as JavaScript rounds, is the integer `(cost + 1) / 2`. */
  lemma {:induction false} HalfRoundsUp(c: int)
    ensures JsRound(c as real * 0.5) == (c + 1) / 2
  {
    var n := (c + 1) / 2;
    assert 2 * n == c + 1 || 2 * n == c;
    JsRoundUnique(c as real * 0.5, n);
  }

  /** The refund is `Math.round(cost * 0.5)` for a house or building and the full cost otherwise. */
  lemma RefundIsRounded(data: UserData)
    ensures RefundTs(data) ==
      if data.kind == HOUSE_KIND || data.kind == BUILDING_KIND then JsRound(data.cost as real * 0.5) else data.cost
  {
    HalfRoundsUp(data.cost);
  }

  /** The main.ts refund never exceeds what was paid and is never negative. */
  lemma {:induction false} RefundTsBounds(data: UserData)
    requires data.cost >= 0
    ensures 0 <= RefundTs(data) <= data.cost
    ensures data.kind == HOUSE_KIND || data.kind == BUILDING_KIND ==>
      RefundTs(data) == (data.cost + 1) / 2
    ensures data.kind == ROAD_KIND ==> RefundTs(data) == data.cost
  {
    HalfRoundsUp(data.cost);
    assert ROAD_KIND != HOUSE_KIND && ROAD_KIND != BUILDING_KIND;
  }

  /**
   * Erase undoes place: the placed object is found under its key in its
   * kind's map, and erasing it gives back the maps as they were, order
   * included.
   */
  lemma {:induction false} PlaceThenErase(money: int, m: Maps, kind: Kind, wx: int, wz: int,
                                          piece: Piece, angle: int, loaded: set<ModelKey>)
    requires m.Valid() && 0 <= angle < 4
    requires PlaceOutcome(money, m, kind, wx, wz, piece, angle, loaded).Accepted?
    ensures var o := PlaceOutcome(money, m, kind, wx, wz, piece, angle, loaded);
      var m' := AfterPlace(m, kind, o.key, o.obj);
      m'.Valid()
      && LocateRoot(m', o.obj) == Some(Hit(kind, o.key))
      && AfterErase(m', Hit(kind, o.key)) == m
  {
    var o := PlaceOutcome(money, m, kind, wx, wz, piece, angle, loaded);
    var m' := AfterPlace(m, kind, o.key, o.obj);
    PlaceKeepsValid(money, m, kind, wx, wz, piece, angle, loaded);
    assert m'.Get(kind).Has(o.key) && m'.Get(kind).entries[o.key] == o.obj;
    LocateFindsOwner(m', kind, o.key);
    SetThenDelete(m.Get(kind), o.key, o.obj);
    match kind
    case RoadKind =>
    case HouseKind =>
    case BuildingKind =>
  }

  /**
   * The money a place/erase round trip costs in main.ts: nothing for a
   * road, the unrefunded half for a house or a building.
   */
  lemma {:induction false} RoundTripMoney(kind: Kind, piece: Piece, angle: int)
    requires 0 <= angle < 4
    ensures var data := UserData(Cost(kind), KindString(kind), piece, angle, false);
      Cost(kind) - RefundTs(data) == (match kind case RoadKind => 0 case HouseKind => 600 case BuildingKind => 2500)
  {
    var data := UserData(Cost(kind), KindString(kind), piece, angle, false);
    RefundTsBounds(data);
  }
}
