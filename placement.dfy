/**
 * The placement state of the client: cursor mode, selected road piece and
 * quarter-turn index, and the six occupancy maps (roads, houses,
 * buildings, wells, turbines, sawmills) keyed by the integer cell of a
 * world position.
 */
module Placement {
  import opened Wrappers
  import opened Constants
  import opened TileKeys
  import opened JsMap

  datatype CursorMode =
    PanMode | RoadMode | HouseMode | BuildingMode | BulldozerMode | WellMode | TurbineMode | SawmillMode

  /** Road piece: straight, corner, crossing. */
  datatype Piece = I | L | X

  /** Which loaded prefab an object is cloned from. */
  datatype ModelKey = PieceModel(piece: Piece) | HouseModel | BuildingModel | WellModel | TurbineModel | SawmillModel

  /** `userData` of a placed object; `kind` is the string it was built for. */
  datatype UserData = UserData(cost: int, kind: string, piece: Piece, angle: int, example: bool)

  /**
   * A placed object: its prefab, `userData`, its yaw as an entry of `ANG`
   * (in quarter turns) and its world position on the ground plane.
   */
  datatype Placed = Placed(model: ModelKey, data: UserData, yaw: int, x: real, z: real)

  type Bag = OMap<Key, Placed>

  datatype BagId = Roads | Houses | Buildings | Wells | Turbines | Sawmills

  /** The six occupancy maps together. */
  datatype Occupancy = Occupancy(roads: Bag, houses: Bag, buildings: Bag, wells: Bag, turbines: Bag, sawmills: Bag) {

    ghost predicate Valid() {
      roads.Valid() && houses.Valid() && buildings.Valid()
      && wells.Valid() && turbines.Valid() && sawmills.Valid()
    }

    function Get(b: BagId): Bag {
      match b
      case Roads => roads
      case Houses => houses
      case Buildings => buildings
      case Wells => wells
      case Turbines => turbines
      case Sawmills => sawmills
    }

    /** The same maps, with bag `b` replaced by `m`. */
    function With(b: BagId, m: Bag): (r: Occupancy)
      ensures r.Get(b) == m
      ensures forall c :: c != b ==> r.Get(c) == Get(c)
    {
      match b
      case Roads => this.(roads := m)
      case Houses => this.(houses := m)
      case Buildings => this.(buildings := m)
      case Wells => this.(wells := m)
      case Turbines => this.(turbines := m)
      case Sawmills => this.(sawmills := m)
    }
  }

  const ROAD_KIND: string := "road"
  const HOUSE_KIND: string := "house"
  const BUILDING_KIND: string := "building"
  const WELL_KIND: string := "well"
  const TURBINE_KIND: string := "turbine"
  const SAWMILL_KIND: string := "sawmill"

  /**
   * The prefab `buildPlacedObject` clones for `kind`: a building prefab
   * for the five building kinds, the current road piece for anything else.
   */
  function ModelFor(kind: string, piece: Piece): (k: ModelKey)
    ensures k.PieceModel? <==>
      kind !in {HOUSE_KIND, BUILDING_KIND, WELL_KIND, TURBINE_KIND, SAWMILL_KIND}
    ensures k.PieceModel? ==> k.piece == piece
  {
    if kind == HOUSE_KIND then HouseModel
    else if kind == BUILDING_KIND then BuildingModel
    else if kind == WELL_KIND then WellModel
    else if kind == TURBINE_KIND then TurbineModel
    else if kind == SAWMILL_KIND then SawmillModel
    else PieceModel(piece)
  }

  /** `(angleIndex + 1) & 3`; on 32-bit integers `& 3` is the Euclidean `% 4`. */
  function NextAngle(a: int): (r: int)
    ensures 0 <= r < 4
    ensures (r - a - 1) % 4 == 0
  {
    (a + 1) % 4
  }

  lemma {:induction false} FourTurnsReturn(a: int)
    requires 0 <= a < 4
    ensures NextAngle(NextAngle(NextAngle(NextAngle(a)))) == a
  {
    if a == 0 {
      assert NextAngle(0) == 1 && NextAngle(1) == 2 && NextAngle(2) == 3 && NextAngle(3) == 0;
    } else if a == 1 {
      assert NextAngle(1) == 2 && NextAngle(2) == 3 && NextAngle(3) == 0 && NextAngle(0) == 1;
    } else if a == 2 {
      assert NextAngle(2) == 3 && NextAngle(3) == 0 && NextAngle(0) == 1 && NextAngle(1) == 2;
    } else {
      assert NextAngle(3) == 0 && NextAngle(0) == 1 && NextAngle(1) == 2 && NextAngle(2) == 3;
    }
  }

  /**
   * `keyFromCenter(wx, wz)`: the key of the cell holding the world point,
   * `Math.floor(wx / CELL):Math.floor(wz / CELL)`.
   */
  function KeyFromCenter(wx: real, wz: real): (k: Key)
    ensures (k.x * CELL) as real <= wx < ((k.x + 1) * CELL) as real
    ensures (k.z * CELL) as real <= wz < ((k.z + 1) * CELL) as real
  {
    Key(CellIndex(wx), CellIndex(wz))
  }

  /** `keyFromTile(ix, iz)`: the key of a cell given by its indices. */
  function KeyFromTile(ix: int, iz: int): (k: Key)
    ensures KeyString(k) == IntString(ix) + ":" + IntString(iz)
  {
    Key(ix, iz)
  }

  /** Every point of cell `(ix, iz)` has that cell's key. */
  lemma CellPointsShareKey(ix: int, iz: int, a: real, b: real)
    requires 0.0 <= a < CELL as real && 0.0 <= b < CELL as real
    ensures KeyFromCenter((ix * CELL) as real + a, (iz * CELL) as real + b) == KeyFromTile(ix, iz)
  {
    CellIndexUnique((ix * CELL) as real + a, ix);
    CellIndexUnique((iz * CELL) as real + b, iz);
  }

  /** Moving one cell along an axis moves the key by one. */
  lemma ShiftedKeys(wx: real, wz: real)
    ensures KeyFromCenter(wx + CELL as real, wz) == Key(KeyFromCenter(wx, wz).x + 1, KeyFromCenter(wx, wz).z)
    ensures KeyFromCenter(wx - CELL as real, wz) == Key(KeyFromCenter(wx, wz).x - 1, KeyFromCenter(wx, wz).z)
    ensures KeyFromCenter(wx, wz + CELL as real) == Key(KeyFromCenter(wx, wz).x, KeyFromCenter(wx, wz).z + 1)
    ensures KeyFromCenter(wx, wz - CELL as real) == Key(KeyFromCenter(wx, wz).x, KeyFromCenter(wx, wz).z - 1)
  {
    var c := KeyFromCenter(wx, wz);
    CellIndexUnique(wx + CELL as real, c.x + 1);
    CellIndexUnique(wx - CELL as real, c.x - 1);
    CellIndexUnique(wz + CELL as real, c.z + 1);
    CellIndexUnique(wz - CELL as real, c.z - 1);
  }

  /** The two keys are four-neighbours: one step along exactly one axis. */
  predicate Adjacent(a: Key, b: Key) {
    (a.z == b.z && (a.x == b.x + 1 || a.x == b.x - 1))
    || (a.x == b.x && (a.z == b.z + 1 || a.z == b.z - 1))
  }

  /**
   * `hasAdjacentRoad(wx, wz)`: some four-neighbour of the point's cell is
   * a road. The cell itself is not consulted.
   */
  function HasAdjacentRoad(roads: Bag, wx: real, wz: real): (r: bool)
    ensures r <==> exists k :: roads.Has(k) && Adjacent(k, KeyFromCenter(wx, wz))
  {
    ShiftedKeys(wx, wz);
    var c := KeyFromCenter(wx, wz);
    assert forall k :: Adjacent(k, c) ==>
      k in {Key(c.x + 1, c.z), Key(c.x - 1, c.z), Key(c.x, c.z + 1), Key(c.x, c.z - 1)};
    roads.Has(KeyFromCenter(wx + CELL as real, wz))
    || roads.Has(KeyFromCenter(wx - CELL as real, wz))
    || roads.Has(KeyFromCenter(wx, wz + CELL as real))
    || roads.Has(KeyFromCenter(wx, wz - CELL as real))
  }

  /** Whatever occupies the point's own cell does not change the answer. */
  lemma OwnCellIgnored(roads: Bag, wx: real, wz: real, obj: Placed)
    requires roads.Valid()
    ensures HasAdjacentRoad(roads.Set(KeyFromCenter(wx, wz), obj), wx, wz) == HasAdjacentRoad(roads, wx, wz)
    ensures HasAdjacentRoad(roads.Delete(KeyFromCenter(wx, wz)), wx, wz) == HasAdjacentRoad(roads, wx, wz)
  {
    var c := KeyFromCenter(wx, wz);
    assert !Adjacent(c, c);
    var r1 := roads.Set(c, obj);
    var r2 := roads.Delete(c);
    assert forall k :: k != c ==> (r1.Has(k) <==> roads.Has(k)) && (r2.Has(k) <==> roads.Has(k));
  }

  /**
   * `buildPlacedObject(kind, cost)`: a clone of the kind's prefab, or
   * `None` when that prefab has not finished loading. `piece` and `angle`
   * are the module's current piece and quarter-turn index; `loaded` is the
   * set of prefabs the loader has delivered.
   */
  function BuildPlacedObject(kind: string, cost: int, piece: Piece, angle: int, loaded: set<ModelKey>): (r: Option<Placed>)
    requires 0 <= angle < 4
    ensures r.None? <==> ModelFor(kind, piece) !in loaded
    ensures r.Some? ==> r.value.model == ModelFor(kind, piece)
    ensures r.Some? ==> r.value.data == UserData(cost, kind, piece, angle, false)
    ensures r.Some? ==> r.value.yaw == ANG[angle]
  {
    var key := ModelFor(kind, piece);
    if key !in loaded then None
    else Some(Placed(key, UserData(cost, kind, piece, angle, false), ANG[angle], 0.0, 0.0))
  }

  /** `{ ok, err }` returned by the place functions. */
  datatype PlaceResult = PlaceResult(ok: bool, err: string)

  /** The module-level placement state of placement.ts. */
  class PlacementState {
    var mode: CursorMode
    var piece: Piece
    var angleIndex: int
    var roads: Bag
    var houses: Bag
    var buildings: Bag
    var wells: Bag
    var turbines: Bag
    var sawmills: Bag

    ghost predicate Valid()
      reads this
    {
      0 <= angleIndex < 4 && Bags().Valid()
    }

    function Bags(): Occupancy
      reads this
    {
      Occupancy(roads, houses, buildings, wells, turbines, sawmills)
    }

    constructor ()
      ensures Valid()
      ensures mode == PanMode && piece == I && angleIndex == 0
      ensures Bags() == Occupancy(Empty(), Empty(), Empty(), Empty(), Empty(), Empty())
    {
      mode, piece, angleIndex := PanMode, I, 0;
      roads, houses, buildings := Empty(), Empty(), Empty();
      wells, turbines, sawmills := Empty(), Empty(), Empty();
    }

    function GetMode(): CursorMode
      reads this
    {
      mode
    }

    method SetMode(m: CursorMode)
      modifies this`mode
      ensures GetMode() == m
    {
      mode := m;
    }

    function GetPiece(): Piece
      reads this
    {
      piece
    }

    method SetPiece(p: Piece)
      modifies this`piece
      ensures GetPiece() == p
    {
      piece := p;
    }

    function GetAngle(): int
      reads this
    {
      angleIndex
    }

    method IncAngle()
      requires Valid()
      modifies this`angleIndex
      ensures Valid()
      ensures GetAngle() == NextAngle(old(GetAngle()))
    {
      angleIndex := NextAngle(angleIndex);
    }

    /**
     * `placeGeneric(wx, wz, cost, bag, kind)`: stores a new object at the
     * point under the point's key, replacing whatever was there; no money,
     * occupancy or adjacency check.
     */
    method PlaceGeneric(wx: real, wz: real, cost: int, bag: BagId, kind: string, loaded: set<ModelKey>)
      returns (res: PlaceResult)
      requires Valid()
      modifies this
      ensures Valid()
      ensures mode == old(mode) && piece == old(piece) && angleIndex == old(angleIndex)
      ensures ModelFor(kind, piece) !in loaded ==>
        res == PlaceResult(false, "model") && Bags() == old(Bags())
      ensures ModelFor(kind, piece) in loaded ==>
        res == PlaceResult(true, "")
        && Bags() == old(Bags()).With(bag, old(Bags()).Get(bag).Set(KeyFromCenter(wx, wz),
             BuildPlacedObject(kind, cost, piece, angleIndex, loaded).value.(x := wx, z := wz)))
    {
      var id := KeyFromCenter(wx, wz);
      var obj := BuildPlacedObject(kind, cost, piece, angleIndex, loaded);
      if obj.None? {
        return PlaceResult(false, "model");
      }
      var placed := obj.value.(x := wx, z := wz);
      match bag {
        case Roads => roads := roads.Set(id, placed);
        case Houses => houses := houses.Set(id, placed);
        case Buildings => buildings := buildings.Set(id, placed);
        case Wells => wells := wells.Set(id, placed);
        case Turbines => turbines := turbines.Set(id, placed);
        case Sawmills => sawmills := sawmills.Set(id, placed);
      }
      res := PlaceResult(true, "");
    }
  }
}
